/**
 * The `useFormValidation` hook of src/hooks/useFormValidation.ts: a form's
 * values, errors, touched flags and dirty flag, validated by a map of rules,
 * and the library of rule factories exported beside it.
 *
 * A rule is any function from a field's value and the whole form to an
 * error message or `null`; the library's factories return such functions.
 */
module FormValidation {

  import opened Wrappers
  import opened JsText
  import opened Patterns
  import Domain
  import Validation

  /** The values a form field can hold: absent, `null`, a string, a checkbox's flag or a list. */
  datatype FieldValue = Undefined | Null | Text(s: string) | Checked(b: bool) | Items(items: seq<string>)

  type Values = map<string, FieldValue>

  /** `ValidatorFn`: an error message, or `None` for `null`. */
  type Validator = (FieldValue, Option<Values>) -> Option<string>

  /** `values[field]`: a missing key reads as `undefined`. */
  function Lookup(values: Values, field: string): FieldValue
  {
    if field in values then values[field] else Undefined
  }

  /** JavaScript truthiness: empty strings, `false`, `null` and `undefined` are falsy; a list never is. */
  predicate Truthy(v: FieldValue)
  {
    match v
    case Undefined => false
    case Null => false
    case Text(s) => s != ""
    case Checked(b) => b
    case Items(_) => true
  }

  /** `String(value)`, the text a regular expression is tested against. */
  function AsString(v: FieldValue): string
  {
    match v
    case Undefined => "undefined"
    case Null => "null"
    case Text(s) => s
    case Checked(b) => if b then "true" else "false"
    case Items(items) => Join(items, ',')
  }

  /** `value.length`: `None` for a value without one. */
  function Length(v: FieldValue): Option<nat>
  {
    match v
    case Text(s) => Some(|s|)
    case Items(items) => Some(|items|)
    case _ => None
  }

  const DefaultRequiredMessage := "This field is required"
  const DefaultEmailMessage := "Please enter a valid email address"
  const DefaultPhoneMessage := "Please enter a valid phone number"
  const DefaultEitherMessage := "Either email or phone is required"

  /** A default parameter: the given argument, or the default when it is `undefined`. */
  function OrDefault(message: Option<string>, default: string): string
  {
    if message.Some? then message.value else default
  }

  /** `message || fallback`: an empty message falls back too. */
  function OrFallback(message: Option<string>, fallback: string): (r: string)
    ensures message.Some? && message.value != "" ==> r == message.value
    ensures message.None? || message.value == "" ==> r == fallback
  {
    if message.Some? && message.value != "" then message.value else fallback
  }

  /** The check `required` performs. */
  function RequiredCheck(message: string, value: FieldValue): (r: Option<string>)
    ensures r.Some? ==> r == Some(message)
    ensures value.Undefined? || value.Null? ==> r.Some?
    ensures value.Text? ==> (r.Some? <==> value.s == "")
    ensures value.Items? ==> (r.Some? <==> value.items == [])
    ensures value.Checked? ==> r.None?
  {
    if value == Undefined || value == Null || value == Text("") then Some(message)
    else if value.Items? && |value.items| == 0 then Some(message)
    else None
  }

  /** The check `email` performs: nothing to say about a falsy value. */
  function EmailCheck(message: string, value: FieldValue): (r: Option<string>)
    ensures r.Some? ==> r == Some(message)
    ensures !Truthy(value) ==> r.None?
    ensures Truthy(value) ==> (r.None? <==> IsEmail(AsString(value)))
  {
    if !Truthy(value) then None
    else if IsEmail(AsString(value)) then None
    else Some(message)
  }

  /** The check `phone` performs: nothing to say about a falsy value. */
  function PhoneCheck(message: string, value: FieldValue): (r: Option<string>)
    ensures r.Some? ==> r == Some(message)
    ensures !Truthy(value) ==> r.None?
    ensures Truthy(value) ==> (r.None? <==> IsPhone(AsString(value)))
  {
    if !Truthy(value) then None
    else if IsPhone(AsString(value)) then None
    else Some(message)
  }

  /**
   * The check `minLength` performs. A value without a length (a ticked box)
   * compares as `undefined`, which is never at least `min`.
   */
  function MinLengthCheck(min: int, message: Option<string>, value: FieldValue): (r: Option<string>)
    ensures !Truthy(value) ==> r.None?
    ensures Truthy(value) && Length(value).Some? ==> (r.None? <==> Length(value).value >= min)
    ensures Truthy(value) && Length(value).None? ==> r.Some?
    ensures r.Some? ==> r.value == OrFallback(message, "Must be at least " + IntToString(min) + " characters")
  {
    if !Truthy(value) then None
    else if Length(value).Some? && Length(value).value >= min then None
    else Some(OrFallback(message, "Must be at least " + IntToString(min) + " characters"))
  }

  /** The check `maxLength` performs, with the same treatment of values without a length. */
  function MaxLengthCheck(max: int, message: Option<string>, value: FieldValue): (r: Option<string>)
    ensures !Truthy(value) ==> r.None?
    ensures Truthy(value) && Length(value).Some? ==> (r.None? <==> Length(value).value <= max)
    ensures Truthy(value) && Length(value).None? ==> r.Some?
    ensures r.Some? ==> r.value == OrFallback(message, "Must be at most " + IntToString(max) + " characters")
  {
    if !Truthy(value) then None
    else if Length(value).Some? && Length(value).value <= max then None
    else Some(OrFallback(message, "Must be at most " + IntToString(max) + " characters"))
  }

  /** Some contact field of the form is filled in, under either of its two names. */
  predicate HasContact(formValues: Values)
  {
    Truthy(Lookup(formValues, "email")) || Truthy(Lookup(formValues, "emailId"))
    || Truthy(Lookup(formValues, "phone")) || Truthy(Lookup(formValues, "phoneNumber"))
  }

  /** The check `emailOrPhone` performs: it ignores the field's own value and reads the whole form. */
  function EmailOrPhoneCheck(message: string, formValues: Option<Values>): (r: Option<string>)
    ensures formValues.None? ==> r.None?
    ensures formValues.Some? ==> (r.None? <==> HasContact(formValues.value))
    ensures r.Some? ==> r == Some(message)
  {
    if formValues.None? then None
    else if HasContact(formValues.value) then None
    else Some(message)
  }

  /** `validators.required(message)`. */
  function RequiredRule(message: Option<string>): Validator
  {
    (value, formValues) => RequiredCheck(OrDefault(message, DefaultRequiredMessage), value)
  }

  /** `validators.email(message)`. */
  function EmailRule(message: Option<string>): Validator
  {
    (value, formValues) => EmailCheck(OrDefault(message, DefaultEmailMessage), value)
  }

  /** `validators.phone(message)`. */
  function PhoneRule(message: Option<string>): Validator
  {
    (value, formValues) => PhoneCheck(OrDefault(message, DefaultPhoneMessage), value)
  }

  /** `validators.minLength(min, message)`. */
  function MinLengthRule(min: int, message: Option<string>): Validator
  {
    (value, formValues) => MinLengthCheck(min, message, value)
  }

  /** `validators.maxLength(max, message)`. */
  function MaxLengthRule(max: int, message: Option<string>): Validator
  {
    (value, formValues) => MaxLengthCheck(max, message, value)
  }

  /** `validators.emailOrPhone(message)`. */
  function EmailOrPhoneRule(message: Option<string>): Validator
  {
    (value, formValues) => EmailOrPhoneCheck(OrDefault(message, DefaultEitherMessage), formValues)
  }

  /** A rule's answer counts as an error only when it is a non-empty message (`if (error)`). */
  predicate IsError(e: Option<string>)
  {
    e.Some? && e.value != ""
  }

  /** The form's contact details as the hook holds them. */
  function ClientInfoValues(info: Domain.ClientInfo): Values
  {
    map["name" := Text(info.name), "emailId" := Text(info.emailId), "phone" := Text(info.phone),
        "message" := Text(info.message)]
  }

  /**
   * The hook's `required` is weaker than the service's: every string the
   * service accepts passes it, but a blank string passes only the hook's.
   */
  lemma RequiredWeakerThanService(message: string, s: string)
    ensures Validation.Required(s, "Name").isValid ==> RequiredCheck(message, Text(s)).None?
    ensures RequiredCheck(message, Text(" ")).None? && !Validation.Required(" ", "Name").isValid
  {
    if Validation.Required(s, "Name").isValid {
      var i :| 0 <= i < |s| && !IsJsSpace(s[i]);
    }
    var blank := " ";
    assert !IsJsSpace(blank[0]) == false;
    assert !Validation.HasNonSpace(blank);
  }

  /** On strings the hook's `email` and `phone` agree with the service's validators. */
  lemma FormatChecksAgreeWithService(message: string, s: string)
    ensures EmailCheck(message, Text(s)).None? <==> Validation.Email(s).isValid
    ensures PhoneCheck(message, Text(s)).None? <==> Validation.Phone(s).isValid
  {
  }

  /** On contact details held under their own names, `emailOrPhone` agrees with the service's check. */
  lemma EitherAgreesWithService(message: string, info: Domain.ClientInfo)
    ensures EmailOrPhoneCheck(message, Some(ClientInfoValues(info))).None?
        <==> Validation.EmailOrPhone(info.emailId, info.phone).isValid
  {
    var v := ClientInfoValues(info);
    assert Lookup(v, "email") == Undefined && Lookup(v, "phoneNumber") == Undefined;
    assert Lookup(v, "emailId") == Text(info.emailId) && Lookup(v, "phone") == Text(info.phone);
  }

  /** Without a message of its own, a failed length check reports the default text. */
  lemma LengthFallbackMessages()
    ensures MinLengthCheck(2, None, Text("a")) == Some("Must be at least 2 characters")
    ensures MaxLengthCheck(3, Some(""), Text("abcd")) == Some("Must be at most 3 characters")
    ensures MinLengthCheck(2, Some("Too short"), Checked(true)) == Some("Too short")
  {
    assert DigitChar(2) == '2' && DigitChar(3) == '3';
    assert IntToString(2) == "2" && IntToString(3) == "3";
    assert "Must be at least " + "2" + " characters" == "Must be at least 2 characters";
    assert "Must be at most " + "3" + " characters" == "Must be at most 3 characters";
  }

  /** What the rule of `field` says about the form's values. */
  function RuleErrorOf(rules: map<string, Validator>, values: Values, field: string): Option<string>
    requires field in rules
  {
    rules[field](Lookup(values, field), Some(values))
  }

  /**
   * The loop of `validateForm` over the ruled fields: the fields whose rule
   * reports a message, with that message, and whether there were none.
   */
  method CollectErrors(rules: map<string, Validator>, values: Values)
    returns (isValid: bool, newErrors: map<string, Option<string>>)
    ensures forall f :: f in newErrors <==> f in rules && IsError(RuleErrorOf(rules, values, f))
    ensures forall f :: f in newErrors ==> newErrors[f] == RuleErrorOf(rules, values, f)
    ensures isValid <==> forall f :: f in rules ==> !IsError(RuleErrorOf(rules, values, f))
    ensures isValid <==> |newErrors| == 0
  {
    newErrors := map[];
    isValid := true;
    var remaining := rules.Keys;
    var done: set<string> := {};
    while remaining != {}
      invariant remaining + done == rules.Keys && remaining !! done
      invariant forall f :: f in newErrors <==> f in done && IsError(RuleErrorOf(rules, values, f))
      invariant forall f :: f in newErrors ==> newErrors[f] == RuleErrorOf(rules, values, f)
      invariant isValid <==> forall f :: f in done ==> !IsError(RuleErrorOf(rules, values, f))
      decreases remaining
    {
      var field :| field in remaining;
      var error := rules[field](Lookup(values, field), Some(values));
      if IsError(error) {
        isValid := false;
        newErrors := newErrors[field := error];
      }
      remaining := remaining - {field};
      done := done + {field};
    }
    if !isValid {
      var f :| f in done && IsError(RuleErrorOf(rules, values, f));
      assert f in newErrors;
    } else {
      assert newErrors.Keys == {};
    }
  }

  /** The form's state. */
  class Form {
    const initialValues: Values
    const rules: map<string, Validator>
    const validateOnBlur: bool
    var values: Values
    var errors: map<string, Option<string>>
    var touched: map<string, bool>
    var isDirty: bool

    /** The first render, after the effect that resets the form. */
    constructor (initialValues: Values, rules: map<string, Validator>, validateOnBlur: bool)
      ensures this.initialValues == initialValues && this.rules == rules && this.validateOnBlur == validateOnBlur
      ensures values == initialValues && errors == map[] && touched == map[] && !isDirty
    {
      this.initialValues := initialValues;
      this.rules := rules;
      this.validateOnBlur := validateOnBlur;
      values := initialValues;
      errors := map[];
      touched := map[];
      isDirty := false;
    }

    /** What the rule of `field` says about the current values. */
    function RuleError(field: string): Option<string>
      requires field in rules
      reads this
    {
      RuleErrorOf(rules, values, field)
    }

    /** `isValid`: no key at all in `errors`, whatever its value. */
    predicate IsValid()
      reads this
    {
      |errors| == 0
    }

    /**
     * `validateField`: a field without a rule is left alone; otherwise the
     * rule's answer is stored under the field, even when it is `null`, which
     * makes the form invalid.
     */
    method ValidateField(field: string) returns (error: Option<string>)
      modifies this
      ensures values == old(values) && touched == old(touched) && isDirty == old(isDirty)
      ensures field !in rules ==> error.None? && errors == old(errors)
      ensures field in rules ==> error == RuleError(field) && errors == old(errors)[field := error]
      ensures field in rules ==> !IsValid()
    {
      if field !in rules {
        return None;
      }
      error := rules[field](Lookup(values, field), Some(values));
      errors := errors[field := error];
      assert field in errors;
    }

    /**
     * `validateForm`: the new errors hold exactly the fields whose rule
     * reports a message, every ruled field is touched, and the answer is
     * whether no rule did.
     */
    method ValidateForm() returns (isValid: bool)
      modifies this
      ensures values == old(values) && isDirty == old(isDirty)
      ensures forall f :: f in errors <==> f in rules && IsError(RuleError(f))
      ensures forall f :: f in errors ==> errors[f] == RuleError(f)
      ensures touched.Keys == rules.Keys && forall f :: f in touched ==> touched[f]
      ensures isValid <==> forall f :: f in rules ==> !IsError(RuleError(f))
      ensures isValid <==> IsValid()
    {
      var newErrors;
      isValid, newErrors := CollectErrors(rules, values);
      errors := newErrors;
      touched := map f | f in rules.Keys :: true;
    }

    /** `setFieldValue`: the value is replaced and the form is dirty. */
    method SetFieldValue(field: string, value: FieldValue)
      modifies this
      ensures values == old(values)[field := value] && isDirty
      ensures errors == old(errors) && touched == old(touched)
    {
      values := values[field := value];
      isDirty := true;
    }

    /** `setFormValues`: the new values override the old ones key by key. */
    method SetFormValues(newValues: Values)
      modifies this
      ensures forall f :: f in newValues ==> Lookup(values, f) == newValues[f]
      ensures forall f :: f !in newValues ==> Lookup(values, f) == Lookup(old(values), f)
      ensures isDirty && errors == old(errors) && touched == old(touched)
    {
      values := values + newValues;
      isDirty := true;
    }

    /** `setFieldTouched`: marks the field and, on a blur with validation enabled, validates it. */
    method SetFieldTouched(field: string, isTouched: bool)
      modifies this
      ensures touched == old(touched)[field := isTouched]
      ensures values == old(values) && isDirty == old(isDirty)
      ensures validateOnBlur && isTouched && field in rules ==> errors == old(errors)[field := RuleError(field)]
      ensures !(validateOnBlur && isTouched && field in rules) ==> errors == old(errors)
    {
      touched := touched[field := isTouched];
      if validateOnBlur && isTouched {
        var _ := ValidateField(field);
      }
    }

    /** `resetForm`: the initial values, no errors, nothing touched, not dirty. */
    method ResetForm()
      modifies this
      ensures values == initialValues && errors == map[] && touched == map[] && !isDirty
      ensures IsValid()
    {
      values := initialValues;
      errors := map[];
      touched := map[];
      isDirty := false;
    }
  }

  /** A form of contact details validated by the library's rules. */
  function ContactRules(): map<string, Validator>
  {
    map["name" := RequiredRule(None), "emailId" := EmailRule(None), "phone" := PhoneRule(None),
        "message" := MaxLengthRule(250, None)]
  }

  /**
   * A contact form that passes the library's rules can still fail the
   * service's check: the rules accept a one-letter name, so the service's
   * minimum length is not among them.
   */
  lemma ContactRulesLooserThanService()
    ensures var v := ClientInfoValues(Domain.ClientInfo("A", "", "5551234567", ""));
      && (forall f :: f in ContactRules() ==> !IsError(ContactRules()[f](Lookup(v, f), Some(v))))
      && !Validation.ClientInfoAcceptable(Domain.ClientInfo("A", "", "5551234567", ""))
  {
    PlainPhoneAccepted();
  }
}
