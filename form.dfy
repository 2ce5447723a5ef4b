/**
 * The pre-registration form on the client: its payload, the e-mail shape
 * test, the required-field check that builds the error map, and the
 * component state that a submission moves through.
 */
module Form {
  import opened Wrappers
  import opened Text
  import opened Fields

  // ---------------------------------------------------------------------
  // Payload
  // ---------------------------------------------------------------------

  /**
   * The form's state. Every text field is always present (the component
   * starts them all as ""); `facilityType` is "" until a type is chosen.
   */
  datatype Payload = Payload(
    facilityName: string,
    facilityType: string,
    address: string,
    city: string,
    contactName: string,
    role: string,
    email: string,
    phone: string,
    facilitySize: string,
    notes: string,
    website: string,          // the honeypot, hidden from people
    formStartedAt: int)

  /** A fresh form, started at `now`: every field empty. */
  function BlankPayload(now: int): (p: Payload)
    ensures forall f | f != FormStartedAt :: FieldText(p, f) == ""
    ensures p.formStartedAt == now
  {
    Payload("", "", "", "", "", "", "", "", "", "", "", now)
  }

  /** The text a field holds (the start time is not text). */
  function FieldText(p: Payload, f: Field): string
    requires f != FormStartedAt
  {
    match f
    case FacilityName => p.facilityName
    case FacilityType => p.facilityType
    case Address => p.address
    case City => p.city
    case ContactName => p.contactName
    case Role => p.role
    case Email => p.email
    case Phone => p.phone
    case FacilitySize => p.facilitySize
    case Notes => p.notes
    case Website => p.website
  }

  /** `setPayload((p) => ({ ...p, [f]: v }))`: one field replaced, the rest kept. */
  function WithText(p: Payload, f: Field, v: string): (q: Payload)
    requires f != FormStartedAt
    ensures FieldText(q, f) == v
    ensures forall g | g != FormStartedAt && g != f :: FieldText(q, g) == FieldText(p, g)
    ensures q.formStartedAt == p.formStartedAt
  {
    match f
    case FacilityName => p.(facilityName := v)
    case FacilityType => p.(facilityType := v)
    case Address => p.(address := v)
    case City => p.(city := v)
    case ContactName => p.(contactName := v)
    case Role => p.(role := v)
    case Email => p.(email := v)
    case Phone => p.(phone := v)
    case FacilitySize => p.(facilitySize := v)
    case Notes => p.(notes := v)
    case Website => p.(website := v)
  }

  // ---------------------------------------------------------------------
  // The e-mail shape test
  // ---------------------------------------------------------------------

  /** Matches `[^\s@]*`: no whitespace and no at-sign. */
  predicate NoSpaceOrAt(s: string) {
    forall i | 0 <= i < |s| :: !IsSpace(s[i]) && s[i] != '@'
  }

  /**
   * The pattern `^[^\s@]+@[^\s@]+\.[^\s@]+$` read literally, with the at-sign
   * at `i` and the dot at `j`: three non-empty runs free of whitespace and
   * at-signs, the first two separated by the at-sign and the last two by the dot.
   */
  predicate EmailSplit(t: string, i: int, j: int) {
    && 0 < i && i + 1 < j && j + 1 < |t|
    && t[i] == '@' && t[j] == '.'
    && NoSpaceOrAt(t[..i]) && NoSpaceOrAt(t[i + 1..j]) && NoSpaceOrAt(t[j + 1..])
  }

  /** The pattern matches `t` somewhere. */
  ghost predicate MatchesEmailPattern(t: string) {
    exists i, j :: EmailSplit(t, i, j)
  }

  /** The position of the first `c` in `s`, or `|s|` when there is none. */
  function IndexOf(s: string, c: char): (k: nat)
    ensures k <= |s|
    ensures k < |s| ==> s[k] == c
    ensures c !in s[..k]
    decreases |s|
  {
    if s == [] then 0
    else if s[0] == c then 0
    else
      assert s[..1 + IndexOf(s[1..], c)] == [s[0]] + s[1..][..IndexOf(s[1..], c)];
      1 + IndexOf(s[1..], c)
  }

  /** A dot that is neither the first nor the last character. */
  predicate HasInnerDot(d: string) {
    |d| >= 3 && '.' in d[1..|d| - 1]
  }

  /** `isEmailLike`: the trimmed value has the local@domain.tld shape. */
  function IsEmailLike(value: string): bool {
    var t := Trim(value);
    var at := IndexOf(t, '@');
    && 0 < at < |t|
    && NoSpaceOrAt(t[..at])
    && NoSpaceOrAt(t[at + 1..])
    && HasInnerDot(t[at + 1..])
  }

  lemma NoSpaceOrAtSlice(s: string, lo: nat, hi: nat)
    requires lo <= hi <= |s| && NoSpaceOrAt(s)
    ensures NoSpaceOrAt(s[lo..hi])
  {
    forall i | 0 <= i < hi - lo
      ensures !IsSpace(s[lo..hi][i]) && s[lo..hi][i] != '@'
    {
      assert s[lo..hi][i] == s[lo + i];
    }
  }

  lemma NoSpaceOrAtJoin(a: string, c: char, b: string)
    requires NoSpaceOrAt(a) && NoSpaceOrAt(b) && !IsSpace(c) && c != '@'
    ensures NoSpaceOrAt(a + [c] + b)
  {
    var s := a + [c] + b;
    forall k | 0 <= k < |s|
      ensures !IsSpace(s[k]) && s[k] != '@'
    {
      if k < |a| {
        assert s[k] == a[k];
      } else if k > |a| {
        assert s[k] == b[k - |a| - 1];
      }
    }
  }

  /** An e-mail-like value matches the pattern: the first at-sign and an inner dot of the domain split it. */
  lemma EmailLikeMatches(value: string)
    requires IsEmailLike(value)
    ensures MatchesEmailPattern(Trim(value))
  {
    var t := Trim(value);
    var at := IndexOf(t, '@');
    var d := t[at + 1..];
    var inner := d[1..|d| - 1];
    var m :| 0 <= m < |inner| && inner[m] == '.';
    assert d[m + 1] == '.';
    var j := at + 2 + m;
    assert t[j] == d[m + 1];
    NoSpaceOrAtSlice(d, 0, m + 1);
    NoSpaceOrAtSlice(d, m + 2, |d|);
    assert t[at + 1..j] == d[..m + 1];
    assert t[j + 1..] == d[m + 2..];
    assert EmailSplit(t, at, j);
  }

  /** The at-sign of a split is the first one. */
  lemma SplitAtIsFirst(t: string, i: int, j: int)
    requires EmailSplit(t, i, j)
    ensures IndexOf(t, '@') == i
  {
  }

  /** A value whose trim matches the pattern is e-mail-like. */
  lemma MatchesEmailLike(value: string)
    requires MatchesEmailPattern(Trim(value))
    ensures IsEmailLike(value)
  {
    var t := Trim(value);
    var i, j :| EmailSplit(t, i, j);
    SplitAtIsFirst(t, i, j);
    var d := t[i + 1..];
    assert NoSpaceOrAt(d) by {
      assert d == t[i + 1..j] + [t[j]] + t[j + 1..];
      NoSpaceOrAtJoin(t[i + 1..j], t[j], t[j + 1..]);
    }
    assert HasInnerDot(d) by {
      assert d[1..|d| - 1][j - i - 2] == '.';
    }
  }

  /**
   * The shape test is the pattern: a value is e-mail-like exactly when its
   * trim is one at-sign between a non-empty local part and a domain that
   * holds a dot with text on both sides, with no whitespace anywhere.
   */
  lemma IsEmailLikePattern(value: string)
    ensures IsEmailLike(value) <==> MatchesEmailPattern(Trim(value))
  {
    if IsEmailLike(value) {
      EmailLikeMatches(value);
    }
    if MatchesEmailPattern(Trim(value)) {
      MatchesEmailLike(value);
    }
  }

  /** Without an at-sign nothing is e-mail-like. */
  lemma NoAtIsNotEmailLike(value: string)
    requires '@' !in value
    ensures !IsEmailLike(value)
  {
    var t := Trim(value);
    var at := IndexOf(t, '@');
    if at < |t| {
      TrimChars(value, '@');
    }
  }

  // ---------------------------------------------------------------------
  // Field errors
  // ---------------------------------------------------------------------

  const FACILITY_NAME_REQUIRED := "Facility name is required."
  const FACILITY_TYPE_REQUIRED := "Facility type is required."
  const ADDRESS_REQUIRED := "Physical address is required."
  const CITY_REQUIRED := "City / location is required."
  const CONTACT_NAME_REQUIRED := "Contact person full name is required."
  const ROLE_REQUIRED := "Role / position is required."
  const EMAIL_REQUIRED := "Email address is required."
  const EMAIL_INVALID := "Enter a valid email address."
  const PHONE_REQUIRED := "Phone number is required."
  const SUBMIT_FAILED := "We couldn\U{2019}t submit your pre-registration. Please try again."

  /**
   * The error object: an optional message per payload field, and an
   * optional form-level banner. An absent property is `None`.
   */
  datatype FieldErrors = FieldErrors(
    facilityName: Option<string>,
    facilityType: Option<string>,
    address: Option<string>,
    city: Option<string>,
    contactName: Option<string>,
    role: Option<string>,
    email: Option<string>,
    phone: Option<string>,
    facilitySize: Option<string>,
    notes: Option<string>,
    website: Option<string>,
    formStartedAt: Option<string>,
    form: Option<string>)

  /** `{}`: no property set. */
  const NO_ERRORS := FieldErrors(None, None, None, None, None, None, None, None, None, None, None, None, None)

  /** A property of the error object: a field's own message, or the form-level banner. */
  datatype ErrorKey = FieldKey(field: Field) | FormKey

  /** `errors[k]`. */
  function Get(e: FieldErrors, k: ErrorKey): Option<string> {
    match k
    case FormKey => e.form
    case FieldKey(f) =>
      match f
      case FacilityName => e.facilityName
      case FacilityType => e.facilityType
      case Address => e.address
      case City => e.city
      case ContactName => e.contactName
      case Role => e.role
      case Email => e.email
      case Phone => e.phone
      case FacilitySize => e.facilitySize
      case Notes => e.notes
      case Website => e.website
      case FormStartedAt => e.formStartedAt
  }

  /** `Object.keys(e).length == 0` is being `{}`: no key holds a message. */
  lemma NoKeysIsEmpty(e: FieldErrors)
    ensures (forall k :: Get(e, k).None?) <==> e == NO_ERRORS
  {
    if forall k :: Get(e, k).None? {
      assert Get(e, FieldKey(FacilityName)).None? && Get(e, FieldKey(FacilityType)).None?;
      assert Get(e, FieldKey(Address)).None? && Get(e, FieldKey(City)).None?;
      assert Get(e, FieldKey(ContactName)).None? && Get(e, FieldKey(Role)).None?;
      assert Get(e, FieldKey(Email)).None? && Get(e, FieldKey(Phone)).None?;
      assert Get(e, FieldKey(FacilitySize)).None? && Get(e, FieldKey(Notes)).None?;
      assert Get(e, FieldKey(Website)).None? && Get(e, FieldKey(FormStartedAt)).None?;
      assert Get(e, FormKey).None?;
    }
  }

  /** The fields `validate` looks at, in the order it looks at them. */
  const VALIDATED: seq<Field> := [FacilityName, FacilityType, Address, City, ContactName, Role, Email, Phone]

  /** The error object `validate` returns: each required field's own check, and no banner. */
  function Validation(p: Payload): FieldErrors {
    FieldErrors(
      if IsBlank(p.facilityName) then Some(FACILITY_NAME_REQUIRED) else None,
      if p.facilityType == "" then Some(FACILITY_TYPE_REQUIRED) else None,
      if IsBlank(p.address) then Some(ADDRESS_REQUIRED) else None,
      if IsBlank(p.city) then Some(CITY_REQUIRED) else None,
      if IsBlank(p.contactName) then Some(CONTACT_NAME_REQUIRED) else None,
      if IsBlank(p.role) then Some(ROLE_REQUIRED) else None,
      if IsBlank(p.email) then Some(EMAIL_REQUIRED) else if !IsEmailLike(p.email) then Some(EMAIL_INVALID) else None,
      if IsBlank(p.phone) then Some(PHONE_REQUIRED) else None,
      None, None, None, None, None)
  }

  /**
   * `validate`: checks the required fields one after another and records a
   * message for each that fails.
   */
  method Validate(p: Payload) returns (errors: FieldErrors)
    ensures errors == Validation(p)
  {
    errors := NO_ERRORS;
    if IsBlank(p.facilityName) {
      errors := errors.(facilityName := Some(FACILITY_NAME_REQUIRED));
    }
    if p.facilityType == "" {
      errors := errors.(facilityType := Some(FACILITY_TYPE_REQUIRED));
    }
    if IsBlank(p.address) {
      errors := errors.(address := Some(ADDRESS_REQUIRED));
    }
    if IsBlank(p.city) {
      errors := errors.(city := Some(CITY_REQUIRED));
    }
    if IsBlank(p.contactName) {
      errors := errors.(contactName := Some(CONTACT_NAME_REQUIRED));
    }
    if IsBlank(p.role) {
      errors := errors.(role := Some(ROLE_REQUIRED));
    }
    if IsBlank(p.email) {
      errors := errors.(email := Some(EMAIL_REQUIRED));
    } else if !IsEmailLike(p.email) {
      errors := errors.(email := Some(EMAIL_INVALID));
    }
    if IsBlank(p.phone) {
      errors := errors.(phone := Some(PHONE_REQUIRED));
    }
  }

  /** What the form demands before it sends anything. */
  predicate ClientValid(p: Payload) {
    && !AllSpace(p.facilityName) && p.facilityType != "" && !AllSpace(p.address) && !AllSpace(p.city)
    && !AllSpace(p.contactName) && !AllSpace(p.role) && IsEmailLike(p.email) && !AllSpace(p.phone)
  }

  /** An e-mail-like value is never blank. */
  lemma EmailLikeIsNotBlank(value: string)
    requires IsEmailLike(value)
    ensures !IsBlank(value)
  {
  }

  /**
   * `validate` returns `{}` exactly when every required field holds more
   * than whitespace, a facility type is chosen and the address is e-mail-like.
   */
  lemma ValidationEmpty(p: Payload)
    ensures Validation(p) == NO_ERRORS <==> ClientValid(p)
  {
    BlankIffAllSpace(p.facilityName);
    BlankIffAllSpace(p.address);
    BlankIffAllSpace(p.city);
    BlankIffAllSpace(p.contactName);
    BlankIffAllSpace(p.role);
    BlankIffAllSpace(p.phone);
    if IsEmailLike(p.email) {
      EmailLikeIsNotBlank(p.email);
    }
  }

  /**
   * Only the eight required fields can carry a message: never the optional
   * fields, the honeypot, the start time or the form banner.
   */
  lemma ErrorKeys(p: Payload, k: ErrorKey)
    requires Get(Validation(p), k).Some?
    ensures k.FieldKey? && k.field in VALIDATED
  {
  }

  /**
   * The e-mail field gets at most one of its two messages: "required" when
   * it is whitespace only, "not valid" when it holds text that is not
   * e-mail-like.
   */
  lemma EmailMessages(p: Payload)
    ensures Validation(p).email.Some? <==> !IsEmailLike(p.email)
    ensures Validation(p).email == Some(EMAIL_REQUIRED) <==> AllSpace(p.email)
    ensures Validation(p).email == Some(EMAIL_INVALID) <==> !AllSpace(p.email) && !IsEmailLike(p.email)
  {
    BlankIffAllSpace(p.email);
    if IsEmailLike(p.email) {
      EmailLikeIsNotBlank(p.email);
    }
  }

  /** Editing one field never changes another field's message. */
  lemma ErrorLocality(p: Payload, g: Field, v: string, f: Field)
    requires g != FormStartedAt && f != g
    ensures Get(Validation(WithText(p, g, v)), FieldKey(f)) == Get(Validation(p), FieldKey(f))
  {
    if f != FormStartedAt {
      SameTextSameError(WithText(p, g, v), p, f);
    }
  }

  /** A field's message depends on nothing but that field's text. */
  lemma SameTextSameError(p: Payload, q: Payload, f: Field)
    requires f != FormStartedAt && FieldText(p, f) == FieldText(q, f)
    ensures Get(Validation(p), FieldKey(f)) == Get(Validation(q), FieldKey(f))
  {
  }

  // ---------------------------------------------------------------------
  // The component
  // ---------------------------------------------------------------------

  /** How the request went, as the component sees it. */
  datatype FetchOutcome =
    | Threw                                      // `fetch` rejected
    | Responded(ok: bool, error: Option<string>) // `res.ok`, and the body's `error` if it had one

  /** The error object once the request has settled. */
  function ErrorsAfter(outcome: FetchOutcome, before: FieldErrors): (errors: FieldErrors)
    ensures outcome.Responded? && outcome.ok ==> errors == NO_ERRORS
    ensures outcome.Responded? && !outcome.ok ==> forall k :: Get(errors, k).Some? <==> k == FormKey
    ensures outcome.Responded? && !outcome.ok ==>
              errors.form == Some(if outcome.error.Some? then outcome.error.value else SUBMIT_FAILED)
    ensures outcome.Threw? ==> errors == before
  {
    match outcome
    case Threw => before
    case Responded(ok, error) =>
      if ok then NO_ERRORS
      else NO_ERRORS.(form := Some(error.GetOr(SUBMIT_FAILED)))
  }

  class PreRegisterForm {
    var payload: Payload
    var submitting: bool
    var submitted: bool
    var errors: FieldErrors

    constructor (now: int)
      ensures payload == BlankPayload(now) && !submitting && !submitted && errors == NO_ERRORS
    {
      payload := BlankPayload(now);
      submitting := false;
      submitted := false;
      errors := NO_ERRORS;
    }

    /** `canSubmit`: the button is enabled while no request is in flight. */
    predicate CanSubmit()
      reads this
    {
      !submitting
    }

    /** An input's `onChange`: one field takes the new text. */
    method Edit(f: Field, v: string)
      requires f != FormStartedAt
      modifies this
      ensures payload == WithText(old(payload), f, v)
      ensures submitting == old(submitting) && submitted == old(submitted) && errors == old(errors)
    {
      payload := WithText(payload, f, v);
    }

    /**
     * `onSubmit` up to the request: clears the success notice, shows the
     * local errors and, when there are none, marks the form busy and hands
     * back the payload to send.
     */
    method BeginSubmit() returns (request: Option<Payload>)
      modifies this
      ensures payload == old(payload) && !submitted
      ensures errors == Validation(old(payload))
      ensures request.Some? <==> ClientValid(old(payload))
      ensures request.Some? ==> request.value == old(payload) && !CanSubmit()
      ensures request.None? ==> submitting == old(submitting)
    {
      submitted := false;
      var nextErrors := Validate(payload);
      errors := nextErrors;
      ValidationEmpty(payload);
      if nextErrors != NO_ERRORS {
        return None;
      }
      submitting := true;
      request := Some(payload);
    }

    /**
     * `onSubmit` after the request: a refused request shows the server's
     * message or the fallback, an accepted one shows the notice and starts a
     * fresh form at `now`; either way the form is no longer busy.
     */
    method FinishSubmit(outcome: FetchOutcome, now: int)
      modifies this
      ensures errors == ErrorsAfter(outcome, old(errors))
      ensures outcome.Responded? && outcome.ok ==> payload == BlankPayload(now) && submitted
      ensures !(outcome.Responded? && outcome.ok) ==> payload == old(payload) && submitted == old(submitted)
      ensures CanSubmit()
    {
      if outcome.Responded? {
        if !outcome.ok {
          errors := NO_ERRORS.(form := Some(outcome.error.GetOr(SUBMIT_FAILED)));
        } else {
          submitted := true;
          errors := NO_ERRORS;
          payload := BlankPayload(now);
        }
      }
      submitting := false;
    }

    /**
     * `onSubmit` from start to end. `respond` is the request to the endpoint
     * with the payload as its body; `now` is the clock when the form resets.
     */
    method OnSubmit(respond: Payload -> FetchOutcome, now: int) returns (request: Option<Payload>)
      modifies this
      ensures request.Some? <==> ClientValid(old(payload))
      ensures request.None? ==> && errors == Validation(old(payload)) && errors != NO_ERRORS
                                && payload == old(payload) && !submitted && submitting == old(submitting)
      ensures request.Some? ==> && request.value == old(payload) && CanSubmit()
                                && errors == ErrorsAfter(respond(old(payload)), NO_ERRORS)
                                && submitted == (respond(old(payload)).Responded? && respond(old(payload)).ok)
                                && payload == (if submitted then BlankPayload(now) else old(payload))
    {
      request := BeginSubmit();
      ValidationEmpty(old(payload));
      if request.None? {
        return;
      }
      var outcome := respond(request.value);
      FinishSubmit(outcome, now);
    }
  }
}
