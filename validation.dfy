/**
 * The form checks of src/services/validation.ts: the `validators` object,
 * `validateClientInfo`, which fills an error map field by field with later
 * writes guarded by earlier entries, and `validateBookingData`.
 */
module Validation {

  import opened Wrappers
  import opened JsText
  import opened Patterns
  import opened Domain
  import opened BookingStateHook

  datatype ValidationResult = ValidationResult(isValid: bool, error: Option<string>)

  const InvalidEmailMessage := "Please enter a valid email address"
  const InvalidPhoneMessage := "Please enter a valid phone number"
  const EitherMessage := "Either email or phone is required"

  function RequiredMessage(fieldName: string): string
  {
    fieldName + " is required"
  }

  function AtLeastMessage(fieldName: string, min: nat): string
  {
    fieldName + " must be at least " + NatToString(min) + " characters"
  }

  function AtMostMessage(fieldName: string, max: nat): string
  {
    fieldName + " must be at most " + NatToString(max) + " characters"
  }

  /** Some character of `s` is not JavaScript white space. */
  predicate HasNonSpace(s: string)
  {
    exists i :: 0 <= i < |s| && !IsJsSpace(s[i])
  }

  /** `required` on a string: present and not blank after trimming. */
  function Required(value: string, fieldName: string): (r: ValidationResult)
    ensures r.isValid <==> HasNonSpace(value)
    ensures r.isValid <==> r.error.None?
    ensures !r.isValid ==> r.error == Some(RequiredMessage(fieldName))
  {
    TrimNonEmpty(value);
    var isValid := value != "" && |Trim(value)| > 0;
    ValidationResult(isValid, if isValid then None else Some(RequiredMessage(fieldName)))
  }

  /** `minLength`: an inclusive lower bound on the length. */
  function MinLength(value: string, min: nat, fieldName: string): (r: ValidationResult)
    ensures r.isValid <==> |value| >= min
    ensures r.isValid <==> r.error.None?
    ensures !r.isValid ==> r.error == Some(AtLeastMessage(fieldName, min))
  {
    var isValid := |value| >= min;
    ValidationResult(isValid, if isValid then None else Some(AtLeastMessage(fieldName, min)))
  }

  /** `maxLength`: an inclusive upper bound on the length. */
  function MaxLength(value: string, max: nat, fieldName: string): (r: ValidationResult)
    ensures r.isValid <==> |value| <= max
    ensures r.isValid <==> r.error.None?
    ensures !r.isValid ==> r.error == Some(AtMostMessage(fieldName, max))
  {
    var isValid := |value| <= max;
    ValidationResult(isValid, if isValid then None else Some(AtMostMessage(fieldName, max)))
  }

  /** `email`: the empty string passes; anything else must match the pattern. */
  function Email(value: string): (r: ValidationResult)
    ensures r.isValid <==> value == "" || IsEmail(value)
    ensures r.isValid <==> r.error.None?
    ensures !r.isValid ==> r.error == Some(InvalidEmailMessage)
  {
    if value == "" then ValidationResult(true, None)
    else
      var isValid := IsEmail(value);
      ValidationResult(isValid, if isValid then None else Some(InvalidEmailMessage))
  }

  /** `phone`: the empty string passes; anything else must match the pattern. */
  function Phone(value: string): (r: ValidationResult)
    ensures r.isValid <==> value == "" || IsPhone(value)
    ensures r.isValid <==> r.error.None?
    ensures !r.isValid ==> r.error == Some(InvalidPhoneMessage)
  {
    if value == "" then ValidationResult(true, None)
    else
      var isValid := IsPhone(value);
      ValidationResult(isValid, if isValid then None else Some(InvalidPhoneMessage))
  }

  /** `emailOrPhone`: at least one of the two is non-empty. */
  function EmailOrPhone(email: string, phone: string): (r: ValidationResult)
    ensures r.isValid <==> email != "" || phone != ""
    ensures r.isValid <==> r.error.None?
    ensures !r.isValid ==> r.error == Some(EitherMessage)
  {
    var isValid := email != "" || phone != "";
    ValidationResult(isValid, if isValid then None else Some(EitherMessage))
  }

  /** The error `validateClientInfo` records for the name: required first, then 2 to 50 characters. */
  function NameError(name: string): (e: Option<string>)
    ensures e.None? <==> HasNonSpace(name) && 2 <= |name| <= 50
    ensures !HasNonSpace(name) ==> e == Some(RequiredMessage("Name"))
    ensures HasNonSpace(name) && |name| < 2 ==> e == Some(AtLeastMessage("Name", 2))
    ensures HasNonSpace(name) && |name| > 50 ==> e == Some(AtMostMessage("Name", 50))
  {
    var required := Required(name, "Name");
    if !required.isValid then required.error
    else
      var min := MinLength(name, 2, "Name");
      var max := MaxLength(name, 50, "Name");
      if !max.isValid then max.error else if !min.isValid then min.error else None
  }

  /** The address's own error: checked only when present, and its length only once its format passes. */
  function OwnEmailError(email: string): (e: Option<string>)
    ensures e.None? <==> email == "" || (IsEmail(email) && |email| <= 60)
    ensures email != "" && !IsEmail(email) ==> e == Some(InvalidEmailMessage)
    ensures email != "" && IsEmail(email) && |email| > 60 ==> e == Some(AtMostMessage("Email", 60))
  {
    if email == "" then None
    else
      var format := Email(email);
      if !format.isValid then format.error
      else
        var max := MaxLength(email, 60, "Email");
        if !max.isValid then max.error else None
  }

  /** The phone's own error: checked only when present. */
  function OwnPhoneError(phone: string): (e: Option<string>)
    ensures e.None? <==> phone == "" || IsPhone(phone)
    ensures phone != "" && !IsPhone(phone) ==> e == Some(InvalidPhoneMessage)
  {
    if phone == "" then None
    else
      var format := Phone(phone);
      if !format.isValid then format.error else None
  }

  /** The message's error: checked only when present, at most 250 characters. */
  function MessageError(message: string): (e: Option<string>)
    ensures e.None? <==> |message| <= 250
    ensures e.Some? ==> e == Some(AtMostMessage("Message", 250))
  {
    if message == "" then None
    else
      var max := MaxLength(message, 250, "Message");
      if !max.isValid then max.error else None
  }

  /** `m` with `key` set to the error, if there is one. */
  function Put(m: map<string, string>, key: string, e: Option<string>): map<string, string>
  {
    if e.Some? then m[key := e.value] else m
  }

  /**
   * The error map `validateClientInfo` builds: each field's own error, and
   * the either-or error written to the contact fields that have none.
   */
  function ClientInfoErrors(data: ClientInfo): (r: map<string, string>)
    ensures r.Keys <= {"name", "emailId", "phone", "message"}
    ensures "name" in r <==> NameError(data.name).Some?
    ensures "name" in r ==> r["name"] == NameError(data.name).value
    ensures "emailId" in r <==> OwnEmailError(data.emailId).Some? || (data.emailId == "" && data.phone == "")
    ensures "phone" in r <==> OwnPhoneError(data.phone).Some? || (data.emailId == "" && data.phone == "")
    ensures "message" in r <==> MessageError(data.message).Some?
    ensures data.emailId == "" && data.phone == "" ==> r["emailId"] == EitherMessage && r["phone"] == EitherMessage
    ensures OwnEmailError(data.emailId).Some? ==> r["emailId"] == OwnEmailError(data.emailId).value
    ensures OwnPhoneError(data.phone).Some? ==> r["phone"] == OwnPhoneError(data.phone).value
  {
    Put(AddEither(FieldErrors(data), data.emailId, data.phone), "message", MessageError(data.message))
  }

  /** The name's, the address's and the phone's own errors. */
  function FieldErrors(data: ClientInfo): (r: map<string, string>)
    ensures r.Keys <= {"name", "emailId", "phone"}
    ensures "name" in r <==> NameError(data.name).Some?
    ensures "name" in r ==> r["name"] == NameError(data.name).value
    ensures "emailId" in r <==> OwnEmailError(data.emailId).Some?
    ensures "emailId" in r ==> r["emailId"] == OwnEmailError(data.emailId).value != ""
    ensures "phone" in r <==> OwnPhoneError(data.phone).Some?
    ensures "phone" in r ==> r["phone"] == OwnPhoneError(data.phone).value != ""
  {
    Put(Put(Put(map[], "name", NameError(data.name)), "emailId", OwnEmailError(data.emailId)),
        "phone", OwnPhoneError(data.phone))
  }

  /** `!m[key]`: no entry for `key`, or an empty one. */
  predicate NoEntry(m: map<string, string>, key: string)
  {
    key !in m || m[key] == ""
  }

  /** The either-or error, written to each contact field that has no error yet. */
  function AddEither(m: map<string, string>, email: string, phone: string): (r: map<string, string>)
    ensures forall k :: k != "emailId" && k != "phone" ==> (k in r <==> k in m) && (k in m ==> r[k] == m[k])
    ensures "emailId" in r <==> "emailId" in m || (email == "" && phone == "")
    ensures "phone" in r <==> "phone" in m || (email == "" && phone == "")
    ensures !NoEntry(m, "emailId") ==> r["emailId"] == m["emailId"]
    ensures !NoEntry(m, "phone") ==> r["phone"] == m["phone"]
    ensures email == "" && phone == "" && NoEntry(m, "emailId") ==> r["emailId"] == EitherMessage
    ensures email == "" && phone == "" && NoEntry(m, "phone") ==> r["phone"] == EitherMessage
  {
    var either := EmailOrPhone(email, phone);
    if either.isValid then m
    else
      var m1 := if NoEntry(m, "emailId") then m["emailId" := either.error.value] else m;
      if NoEntry(m1, "phone") then m1["phone" := either.error.value] else m1
  }

  /** Every field of the contact details passes its checks. */
  predicate ClientInfoAcceptable(data: ClientInfo)
  {
    && HasNonSpace(data.name) && 2 <= |data.name| <= 50
    && (data.emailId != "" || data.phone != "")
    && (data.emailId != "" ==> IsEmail(data.emailId) && |data.emailId| <= 60)
    && (data.phone != "" ==> IsPhone(data.phone))
    && |data.message| <= 250
  }

  /** The map is empty exactly when every field passes. */
  lemma ClientInfoValidIff(data: ClientInfo)
    ensures |ClientInfoErrors(data)| == 0 <==> ClientInfoAcceptable(data)
  {
    var r := ClientInfoErrors(data);
    if |r| == 0 {
      assert r.Keys == {};
    } else {
      var k :| k in r.Keys;
    }
  }

  /** No error of the address's own reads like the either-or error. */
  lemma OwnEmailErrorNotEither(email: string)
    ensures OwnEmailError(email) != Some(EitherMessage)
  {
    assert InvalidEmailMessage[1] != EitherMessage[1];
    assert AtMostMessage("Email", 60)[1] == 'm' != EitherMessage[1];
  }

  /**
   * The either-or error never meets an earlier entry: it fires only when
   * both contact fields are empty, and then neither has an error of its own.
   */
  lemma EitherErrorOnlyWhenBothEmpty(data: ClientInfo)
    ensures !EmailOrPhone(data.emailId, data.phone).isValid ==>
      OwnEmailError(data.emailId).None? && OwnPhoneError(data.phone).None?
    ensures "emailId" in ClientInfoErrors(data) && ClientInfoErrors(data)["emailId"] == EitherMessage
        <==> data.emailId == "" && data.phone == ""
  {
    OwnEmailErrorNotEither(data.emailId);
  }

  /** `validateClientInfo`: the map is filled in source order, and the result is valid iff it stays empty. */
  /** The name block of `validateClientInfo`: required first, then the length bounds. */
  method CheckName(name: string, errors: map<string, string>) returns (r: map<string, string>)
    ensures r == Put(errors, "name", NameError(name))
  {
    r := errors;
    var nameValidation := Required(name, "Name");
    if !nameValidation.isValid {
      r := r["name" := nameValidation.error.value];
    } else {
      var minLengthValidation := MinLength(name, 2, "Name");
      if !minLengthValidation.isValid {
        r := r["name" := minLengthValidation.error.value];
      }
      var maxLengthValidation := MaxLength(name, 50, "Name");
      if !maxLengthValidation.isValid {
        r := r["name" := maxLengthValidation.error.value];
      }
    }
  }

  /** The e-mail block: only a present address is checked, its length only once its format passes. */
  method CheckEmail(email: string, errors: map<string, string>) returns (r: map<string, string>)
    ensures r == Put(errors, "emailId", OwnEmailError(email))
  {
    r := errors;
    if email != "" {
      var emailValidation := Email(email);
      if !emailValidation.isValid {
        r := r["emailId" := emailValidation.error.value];
      } else {
        var maxLengthValidation := MaxLength(email, 60, "Email");
        if !maxLengthValidation.isValid {
          r := r["emailId" := maxLengthValidation.error.value];
        }
      }
    }
  }

  /** The phone block: only a present number is checked. */
  method CheckPhone(phone: string, errors: map<string, string>) returns (r: map<string, string>)
    ensures r == Put(errors, "phone", OwnPhoneError(phone))
  {
    r := errors;
    if phone != "" {
      var phoneValidation := Phone(phone);
      if !phoneValidation.isValid {
        r := r["phone" := phoneValidation.error.value];
      }
    }
  }

  /** The either-or block: the error goes to each contact field without an entry. */
  method CheckEither(email: string, phone: string, errors: map<string, string>) returns (r: map<string, string>)
    ensures r == AddEither(errors, email, phone)
  {
    r := errors;
    var emailOrPhoneValidation := EmailOrPhone(email, phone);
    if !emailOrPhoneValidation.isValid {
      if NoEntry(r, "emailId") {
        r := r["emailId" := emailOrPhoneValidation.error.value];
      }
      if NoEntry(r, "phone") {
        r := r["phone" := emailOrPhoneValidation.error.value];
      }
    }
  }

  /** The message block: only a present message is checked. */
  method CheckMessage(message: string, errors: map<string, string>) returns (r: map<string, string>)
    ensures r == Put(errors, "message", MessageError(message))
  {
    r := errors;
    if message != "" {
      var maxLengthValidation := MaxLength(message, 250, "Message");
      if !maxLengthValidation.isValid {
        r := r["message" := maxLengthValidation.error.value];
      }
    }
  }

  /** `validateClientInfo`: the map is filled block by block in source order; valid iff it stays empty. */
  method ValidateClientInfo(data: ClientInfo) returns (isValid: bool, errors: map<string, string>)
    ensures errors == ClientInfoErrors(data)
    ensures isValid <==> ClientInfoAcceptable(data)
  {
    errors := CheckName(data.name, map[]);
    errors := CheckEmail(data.emailId, errors);
    errors := CheckPhone(data.phone, errors);
    assert errors == FieldErrors(data);
    errors := CheckEither(data.emailId, data.phone, errors);
    errors := CheckMessage(data.message, errors);
    ClientInfoValidIff(data);
    isValid := |errors| == 0;
  }

  const ServicesMessage := "Please select at least one service"
  const ArtistMessage := "Please select an artist"
  const DateMessage := "Please select a date"
  const TimeMessage := "Please select a time"

  function ServicesError(services: seq<SubService>): Option<string>
  {
    if |services| == 0 then Some(ServicesMessage) else None
  }

  function ArtistError(artist: Option<string>): Option<string>
  {
    if !Truthy(artist) then Some(ArtistMessage) else None
  }

  function DateError(date: Option<int>): Option<string>
  {
    if date.None? then Some(DateMessage) else None
  }

  function TimeError(time: Option<string>): Option<string>
  {
    if !Truthy(time) then Some(TimeMessage) else None
  }

  /** The error map `validateBookingData` builds: one entry per missing choice. */
  function BookingDataErrors(services: seq<SubService>, artist: Option<string>, date: Option<int>,
                             time: Option<string>): (r: map<string, string>)
    ensures r.Keys <= {"services", "artist", "date", "time"}
    ensures "services" in r <==> |services| == 0
    ensures "artist" in r <==> !Truthy(artist)
    ensures "date" in r <==> date.None?
    ensures "time" in r <==> !Truthy(time)
    ensures "services" in r ==> r["services"] == ServicesMessage
    ensures "artist" in r ==> r["artist"] == ArtistMessage
    ensures "date" in r ==> r["date"] == DateMessage
    ensures "time" in r ==> r["time"] == TimeMessage
  {
    Put(Put(Put(Put(map[], "services", ServicesError(services)), "artist", ArtistError(artist)),
            "date", DateError(date)), "time", TimeError(time))
  }

  /** The booking map is empty exactly when services, artist, date and time are all chosen. */
  lemma BookingDataValidIff(services: seq<SubService>, artist: Option<string>, date: Option<int>,
                            time: Option<string>)
    ensures |BookingDataErrors(services, artist, date, time)| == 0
      <==> |services| > 0 && Truthy(artist) && date.Some? && Truthy(time)
  {
    var r := BookingDataErrors(services, artist, date, time);
    if |r| == 0 {
      assert r.Keys == {};
    } else {
      var k :| k in r.Keys;
    }
  }

  /** `validateBookingData`: valid iff services, artist, date and time are all chosen. */
  method ValidateBookingData(services: seq<SubService>, artist: Option<string>, date: Option<int>,
                             time: Option<string>) returns (isValid: bool, errors: map<string, string>)
    ensures errors == BookingDataErrors(services, artist, date, time)
    ensures isValid <==> |services| > 0 && Truthy(artist) && date.Some? && Truthy(time)
  {
    errors := map[];
    if |services| == 0 {
      errors := errors["services" := ServicesMessage];
    }
    assert errors == Put(map[], "services", ServicesError(services));
    ghost var before := errors;
    if !Truthy(artist) {
      errors := errors["artist" := ArtistMessage];
    }
    assert errors == Put(before, "artist", ArtistError(artist));
    before := errors;
    if date.None? {
      errors := errors["date" := DateMessage];
    }
    assert errors == Put(before, "date", DateError(date));
    before := errors;
    if !Truthy(time) {
      errors := errors["time" := TimeMessage];
    }
    assert errors == Put(before, "time", TimeError(time));
    BookingDataValidIff(services, artist, date, time);
    isValid := |errors| == 0;
  }

  /** A booking both checks accept is one the booking hook counts as complete. */
  lemma ValidatedBookingIsComplete(services: seq<SubService>, artist: Option<string>, date: Option<int>,
                                   time: Option<string>, info: ClientInfo)
    requires |BookingDataErrors(services, artist, date, time)| == 0
    requires |ClientInfoErrors(info)| == 0
    ensures Complete(services, artist, date, time, info)
  {
    var r := BookingDataErrors(services, artist, date, time);
    assert r.Keys == {};
    ClientInfoValidIff(info);
  }
}
