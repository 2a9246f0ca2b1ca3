/**
 * The `useBookingState` hook of src/hooks/useBookingState.ts: a holder of the
 * booking in progress whose setters update it in place, with the derived
 * totals and the completeness flag.
 *
 * The hook compares the new service list with the old one by reference
 * (`!==`), so the list is held as an array and compared by identity.
 */
module BookingStateHook {

  import opened Wrappers
  import opened Domain
  import opened Utils
  import opened BookingContext

  /** JavaScript truthiness of an optional string: present and not empty. */
  predicate Truthy(s: Option<string>)
  {
    s.Some? && s.value != ""
  }

  /** The `initialState` argument: each field may be given. */
  datatype InitialBooking = InitialBooking(
    selectedServices: Option<array<SubService>>,
    selectedArtist: Option<string>,
    selectedDate: Option<int>,
    selectedTime: Option<string>,
    selectedTimeEnd: Option<string>,
    clientInfo: Option<ClientInfo>,
    isLoading: Option<bool>,
    error: Option<string>)

  /** `value || null` on an optional string: the empty string becomes `null`. */
  function OrNull(s: Option<string>): (r: Option<string>)
    ensures r.Some? <==> Truthy(s)
    ensures r.Some? ==> r == s
  {
    if Truthy(s) then s else None
  }

  /** `isBookingComplete` on the fields it reads. */
  predicate Complete(services: seq<SubService>, artist: Option<string>, date: Option<int>,
                     time: Option<string>, info: ClientInfo)
  {
    |services| > 0 && Truthy(artist) && date.Some? && Truthy(time)
    && info.name != "" && (info.emailId != "" || info.phone != "")
  }

  class BookingStateHolder {
    var selectedServices: array<SubService>
    var selectedArtist: Option<string>
    var selectedDate: Option<int>
    var selectedTime: Option<string>
    var selectedTimeEnd: Option<string>
    var clientInfo: ClientInfo
    var isLoading: bool
    var error: Option<string>

    /**
     * `useState` seeded from `initialState`, each missing or falsy field
     * falling back to its default. A given service array is kept as the
     * same reference (an array is always truthy).
     */
    constructor (initial: InitialBooking)
      ensures initial.selectedServices.Some? ==> selectedServices == initial.selectedServices.value
      ensures initial.selectedServices.None? ==> fresh(selectedServices) && selectedServices.Length == 0
      ensures selectedArtist == OrNull(initial.selectedArtist)
      ensures selectedDate == initial.selectedDate
      ensures selectedTime == OrNull(initial.selectedTime) && selectedTimeEnd == OrNull(initial.selectedTimeEnd)
      ensures clientInfo == (if initial.clientInfo.Some? then initial.clientInfo.value else EmptyClientInfo)
      ensures isLoading == (initial.isLoading == Some(true))
      ensures error == OrNull(initial.error)
    {
      if initial.selectedServices.Some? {
        selectedServices := initial.selectedServices.value;
      } else {
        selectedServices := new SubService[0];
      }
      selectedArtist := OrNull(initial.selectedArtist);
      selectedDate := initial.selectedDate;
      selectedTime := OrNull(initial.selectedTime);
      selectedTimeEnd := OrNull(initial.selectedTimeEnd);
      clientInfo := if initial.clientInfo.Some? then initial.clientInfo.value else EmptyClientInfo;
      isLoading := initial.isLoading == Some(true);
      error := OrNull(initial.error);
    }

    /** `totalPrice`. */
    function TotalPrice(): int
      reads this, selectedServices
    {
      CalculateTotal(selectedServices[..])
    }

    /** `totalDuration`. */
    function TotalDuration(): nat
      reads this, selectedServices
    {
      CalculateDuration(selectedServices[..])
    }

    /** `isBookingComplete`. */
    predicate IsBookingComplete()
      reads this, selectedServices
    {
      Complete(selectedServices[..], selectedArtist, selectedDate, selectedTime, clientInfo)
    }

    /** `setServices`: a different list clears the artist, the date and the times; the same list keeps them. */
    method SetServices(services: array<SubService>)
      modifies this
      ensures selectedServices == services
      ensures services != old(selectedServices) ==>
        selectedArtist.None? && selectedDate.None? && selectedTime.None? && selectedTimeEnd.None?
      ensures services == old(selectedServices) ==>
        selectedArtist == old(selectedArtist) && selectedDate == old(selectedDate)
        && selectedTime == old(selectedTime) && selectedTimeEnd == old(selectedTimeEnd)
      ensures clientInfo == old(clientInfo) && isLoading == old(isLoading) && error == old(error)
      ensures TotalPrice() == CalculateTotal(services[..]) && TotalDuration() == CalculateDuration(services[..])
      ensures services != old(selectedServices) ==> !IsBookingComplete()
    {
      var changed := selectedServices != services;
      selectedServices := services;
      if changed {
        selectedArtist := None;
        selectedDate := None;
        selectedTime := None;
        selectedTimeEnd := None;
      }
    }

    /** `setArtist`: the same artist keeps the date and the times, another one clears them. */
    method SetArtist(artist: string)
      modifies this
      ensures selectedArtist == Some(artist) && selectedServices == old(selectedServices)
      ensures old(selectedArtist) != Some(artist) ==>
        selectedDate.None? && selectedTime.None? && selectedTimeEnd.None?
      ensures old(selectedArtist) == Some(artist) ==>
        selectedDate == old(selectedDate) && selectedTime == old(selectedTime)
        && selectedTimeEnd == old(selectedTimeEnd)
      ensures clientInfo == old(clientInfo) && isLoading == old(isLoading) && error == old(error)
    {
      var changed := selectedArtist != Some(artist);
      selectedArtist := Some(artist);
      if changed {
        selectedDate := None;
        selectedTime := None;
        selectedTimeEnd := None;
      }
    }

    /** `setDateTime`: the three fields and nothing else. */
    method SetDateTime(date: int, time: string, endTime: string)
      modifies this
      ensures selectedDate == Some(date) && selectedTime == Some(time) && selectedTimeEnd == Some(endTime)
      ensures selectedServices == old(selectedServices) && selectedArtist == old(selectedArtist)
      ensures clientInfo == old(clientInfo) && isLoading == old(isLoading) && error == old(error)
    {
      selectedDate := Some(date);
      selectedTime := Some(time);
      selectedTimeEnd := Some(endTime);
    }

    /** `setClientInfo`: the keys the partial carries override, the rest stay. */
    method SetClientInfo(info: PartialClientInfo)
      modifies this
      ensures clientInfo == MergeClientInfo(old(clientInfo), info)
      ensures selectedServices == old(selectedServices) && selectedArtist == old(selectedArtist)
      ensures selectedDate == old(selectedDate) && selectedTime == old(selectedTime)
      ensures selectedTimeEnd == old(selectedTimeEnd) && isLoading == old(isLoading) && error == old(error)
    {
      clientInfo := MergeClientInfo(clientInfo, info);
    }

    method SetLoading(loading: bool)
      modifies this
      ensures isLoading == loading
      ensures selectedServices == old(selectedServices) && selectedArtist == old(selectedArtist)
      ensures selectedDate == old(selectedDate) && selectedTime == old(selectedTime)
      ensures selectedTimeEnd == old(selectedTimeEnd) && clientInfo == old(clientInfo) && error == old(error)
    {
      isLoading := loading;
    }

    method SetError(message: Option<string>)
      modifies this
      ensures error == message
      ensures selectedServices == old(selectedServices) && selectedArtist == old(selectedArtist)
      ensures selectedDate == old(selectedDate) && selectedTime == old(selectedTime)
      ensures selectedTimeEnd == old(selectedTimeEnd) && clientInfo == old(clientInfo) && isLoading == old(isLoading)
    {
      error := message;
    }

    /** `resetBooking`: a fresh empty list, nothing chosen, no contact details, idle, no error. */
    method ResetBooking()
      modifies this
      ensures fresh(selectedServices) && selectedServices[..] == []
      ensures selectedArtist.None? && selectedDate.None? && selectedTime.None? && selectedTimeEnd.None?
      ensures clientInfo == EmptyClientInfo && !isLoading && error.None?
      ensures !IsBookingComplete() && TotalPrice() == 0 && TotalDuration() == 0
    {
      selectedServices := new SubService[0];
      selectedArtist := None;
      selectedDate := None;
      selectedTime := None;
      selectedTimeEnd := None;
      clientInfo := EmptyClientInfo;
      isLoading := false;
      error := None;
    }
  }

  /** In the context store too, changing the services leaves no booking complete. */
  lemma ServicesChangeMakesIncomplete(state: BookingState, services: seq<SubService>)
    ensures var r := BookingReducer(state, SetServices(services));
      !Complete(r.selectedServices, r.selectedArtist, r.selectedDate, r.selectedTime, r.clientInfo)
  {
  }
  /**
   * A hook seeded with a service array, given that same array again, keeps
   * the seeded artist; a new array, even an empty one, clears it.
   */
  method ReselectInitialServices(list: array<SubService>, artist: string)
    returns (kept: Option<string>, cleared: Option<string>)
    requires artist != ""
    ensures kept == Some(artist) && cleared.None?
  {
    var initial := InitialBooking(Some(list), Some(artist), None, None, None, None, None, None);
    var holder := new BookingStateHolder(initial);
    holder.SetServices(list);
    kept := holder.selectedArtist;
    var other := new SubService[0];
    holder.SetServices(other);
    cleared := holder.selectedArtist;
  }
}
