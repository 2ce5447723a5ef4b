/**
 * The pre-registration endpoint (`POST /api/pre-register`): the submission
 * schema, the anti-bot gate, the mail configuration, the label/value table
 * with its plain-text and HTML renderings, the HTML escaper, and the
 * request-to-response decision.
 *
 * The request handler is modelled as a pure function. What it reads from
 * the outside world is a parameter: the parsed JSON body, the clock, the
 * ISO timestamp string, the environment, `Number()` on the port string,
 * Zod's e-mail check and the outcome of handing a message to the transport.
 */
module Route {
  import opened Wrappers
  import opened Text
  import F = Fields

  // ---------------------------------------------------------------------
  // Submission schema
  // ---------------------------------------------------------------------

  datatype FacilityType = Clinic | Hospital | Laboratory | Pharmacy | Other

  /** The enumeration's members as they are spelled on the wire. */
  const FACILITY_TYPE_NAMES: seq<string> := ["Clinic", "Hospital", "Laboratory", "Pharmacy", "Other"]

  function FacilityTypeName(t: FacilityType): string {
    match t
    case Clinic => "Clinic"
    case Hospital => "Hospital"
    case Laboratory => "Laboratory"
    case Pharmacy => "Pharmacy"
    case Other => "Other"
  }

  /** The parsed JSON values a field can hold. */
  datatype Json =
    | JString(s: string)
    | JInteger(i: int)
    | JFraction          // a number with a fractional part
    | JOther             // null, a boolean, an array or an object

  /**
   * A JSON object, by the schema's keys (the schema ignores every other key).
   * Indexing it by `Field` instead of by key string loses nothing, because
   * different fields are sent under different keys (`F.KeysDistinct`).
   */
  type JsonObject = map<F.Field, Json>

  /** The outcome of checking one value against the schema. */
  datatype Parsed<+T> = Valid(value: T) | Invalid {
    predicate IsFailure() {
      Invalid?
    }

    function PropagateFailure<U>(): Parsed<U>
      requires Invalid?
    {
      Invalid
    }

    function Extract(): T
      requires Valid?
    {
      value
    }
  }

  /** A record the schema accepted (`parsed.data`). */
  datatype Submission = Submission(
    facilityName: string,
    facilityType: FacilityType,
    address: string,
    city: string,
    contactName: string,
    role: string,
    email: string,
    phone: string,
    facilitySize: Option<string>,
    notes: Option<string>,
    website: Option<string>,        // the honeypot
    formStartedAt: Option<int>)

  /** `FacilityTypeSchema`: exactly one of the five names, without trimming. */
  function ParseFacilityType(s: string): (r: Parsed<FacilityType>)
    ensures r.Valid? ==> FacilityTypeName(r.value) == s
    ensures r.Invalid? <==> s !in FACILITY_TYPE_NAMES
  {
    if s == "Clinic" then Valid(Clinic)
    else if s == "Hospital" then Valid(Hospital)
    else if s == "Laboratory" then Valid(Laboratory)
    else if s == "Pharmacy" then Valid(Pharmacy)
    else if s == "Other" then Valid(Other)
    else Invalid
  }

  lemma FacilityTypeRoundTrip(t: FacilityType)
    ensures ParseFacilityType(FacilityTypeName(t)) == Valid(t)
  {
  }

  /** `z.string().trim().min(1)` */
  function NonEmptyText(obj: JsonObject, key: F.Field): Parsed<string> {
    if key in obj && obj[key].JString? && !IsBlank(obj[key].s) then Valid(Trim(obj[key].s)) else Invalid
  }

  /** `z.string().trim().email()`, Zod's e-mail check being `isEmail`. */
  function EmailText(obj: JsonObject, key: F.Field, isEmail: string -> bool): Parsed<string> {
    if key in obj && obj[key].JString? && isEmail(Trim(obj[key].s)) then Valid(Trim(obj[key].s)) else Invalid
  }

  /** `z.string().trim().optional().or(z.literal(""))` */
  function OptionalTrimmedText(obj: JsonObject, key: F.Field): Parsed<Option<string>> {
    if key !in obj then Valid(None)
    else if obj[key].JString? then Valid(Some(Trim(obj[key].s)))
    else Invalid
  }

  /** `z.string().optional()` */
  function OptionalText(obj: JsonObject, key: F.Field): Parsed<Option<string>> {
    if key !in obj then Valid(None)
    else if obj[key].JString? then Valid(Some(obj[key].s))
    else Invalid
  }

  /** `z.number().int().optional()` */
  function OptionalInteger(obj: JsonObject, key: F.Field): Parsed<Option<int>> {
    if key !in obj then Valid(None)
    else if obj[key].JInteger? then Valid(Some(obj[key].i))
    else Invalid
  }

  function FacilityTypeField(obj: JsonObject, key: F.Field): Parsed<FacilityType> {
    if key in obj && obj[key].JString? then ParseFacilityType(obj[key].s) else Invalid
  }

  /** A key holding a string with at least one non-whitespace character. */
  ghost predicate HasText(obj: JsonObject, key: F.Field) {
    key in obj && obj[key].JString? && !AllSpace(obj[key].s)
  }

  /** A key that is either left out or holds a string. */
  ghost predicate StringIfPresent(obj: JsonObject, key: F.Field) {
    key in obj ==> obj[key].JString?
  }

  /**
   * The acceptance rule, field by field: what the schema demands of a JSON
   * object, stated without the parser.
   */
  ghost predicate Acceptable(obj: JsonObject, isEmail: string -> bool) {
    && HasText(obj, F.FacilityName) && HasText(obj, F.Address) && HasText(obj, F.City)
    && HasText(obj, F.ContactName) && HasText(obj, F.Role) && HasText(obj, F.Phone)
    && F.FacilityType in obj && obj[F.FacilityType].JString? && obj[F.FacilityType].s in FACILITY_TYPE_NAMES
    && F.Email in obj && obj[F.Email].JString? && isEmail(Trim(obj[F.Email].s))
    && StringIfPresent(obj, F.FacilitySize) && StringIfPresent(obj, F.Notes) && StringIfPresent(obj, F.Website)
    && (F.FormStartedAt in obj ==> obj[F.FormStartedAt].JInteger?)
  }

  /** A non-empty string with no whitespace at either end. */
  predicate Filled(t: string) {
    t != [] && IsTrimmed(t)
  }

  /** What every accepted record looks like. */
  ghost predicate WellFormed(sub: Submission, isEmail: string -> bool) {
    && Filled(sub.facilityName) && Filled(sub.address) && Filled(sub.city)
    && Filled(sub.contactName) && Filled(sub.role) && Filled(sub.phone)
    && IsTrimmed(sub.email) && isEmail(sub.email)
    && (sub.facilitySize.Some? ==> IsTrimmed(sub.facilitySize.value))
    && (sub.notes.Some? ==> IsTrimmed(sub.notes.value))
  }

  /** `value` is the trim of the string sent under `key`. */
  ghost predicate TrimmedFrom(obj: JsonObject, key: F.Field, value: string) {
    key in obj && obj[key].JString? && value == Trim(obj[key].s)
  }

  lemma NonEmptyTextValid(obj: JsonObject, key: F.Field)
    ensures NonEmptyText(obj, key).Valid? <==> HasText(obj, key)
  {
    if key in obj && obj[key].JString? {
      BlankIffAllSpace(obj[key].s);
    }
  }

  lemma NonEmptyTextValue(obj: JsonObject, key: F.Field)
    requires NonEmptyText(obj, key).Valid?
    ensures Filled(NonEmptyText(obj, key).value) && TrimmedFrom(obj, key, NonEmptyText(obj, key).value)
  {
  }

  /**
   * `PreRegistrationSchema.safeParse(json)`. `body` is `None` when the body
   * is not JSON or not a JSON object. Every field is checked; the record is
   * accepted when all of them are.
   */
  function ParseSubmission(body: Option<JsonObject>, isEmail: string -> bool): Parsed<Submission> {
    if body.None? then Invalid
    else
      var obj := body.value;
      var facilityName := NonEmptyText(obj, F.FacilityName);
      var facilityType := FacilityTypeField(obj, F.FacilityType);
      var address := NonEmptyText(obj, F.Address);
      var city := NonEmptyText(obj, F.City);
      var contactName := NonEmptyText(obj, F.ContactName);
      var role := NonEmptyText(obj, F.Role);
      var email := EmailText(obj, F.Email, isEmail);
      var phone := NonEmptyText(obj, F.Phone);
      var facilitySize := OptionalTrimmedText(obj, F.FacilitySize);
      var notes := OptionalTrimmedText(obj, F.Notes);
      var website := OptionalText(obj, F.Website);
      var formStartedAt := OptionalInteger(obj, F.FormStartedAt);
      if && facilityName.Valid? && facilityType.Valid? && address.Valid? && city.Valid?
         && contactName.Valid? && role.Valid? && email.Valid? && phone.Valid?
         && facilitySize.Valid? && notes.Valid? && website.Valid? && formStartedAt.Valid?
      then
        Valid(Submission(facilityName.value, facilityType.value, address.value, city.value,
                         contactName.value, role.value, email.value, phone.value,
                         facilitySize.value, notes.value, website.value, formStartedAt.value))
      else Invalid
  }

  /** Every field is checked on its own; the record is accepted when all pass. */
  lemma ParseFields(obj: JsonObject, isEmail: string -> bool)
    ensures ParseSubmission(Some(obj), isEmail).Valid? <==>
      && NonEmptyText(obj, F.FacilityName).Valid? && FacilityTypeField(obj, F.FacilityType).Valid?
      && NonEmptyText(obj, F.Address).Valid? && NonEmptyText(obj, F.City).Valid?
      && NonEmptyText(obj, F.ContactName).Valid? && NonEmptyText(obj, F.Role).Valid?
      && EmailText(obj, F.Email, isEmail).Valid? && NonEmptyText(obj, F.Phone).Valid?
      && OptionalTrimmedText(obj, F.FacilitySize).Valid? && OptionalTrimmedText(obj, F.Notes).Valid?
      && OptionalText(obj, F.Website).Valid? && OptionalInteger(obj, F.FormStartedAt).Valid?
  {
  }

  /**
   * The schema accepts a JSON object exactly when the field-by-field rule
   * holds; anything that is not an object is refused.
   */
  lemma ParseAcceptance(obj: JsonObject, isEmail: string -> bool)
    ensures ParseSubmission(Some(obj), isEmail).Valid? <==> Acceptable(obj, isEmail)
    ensures ParseSubmission(None, isEmail).Invalid?
  {
    ParseFields(obj, isEmail);
    NonEmptyTextValid(obj, F.FacilityName);
    NonEmptyTextValid(obj, F.Address);
    NonEmptyTextValid(obj, F.City);
    NonEmptyTextValid(obj, F.ContactName);
    NonEmptyTextValid(obj, F.Role);
    NonEmptyTextValid(obj, F.Phone);
  }

  /** The accepted record is made of what each field's check produced. */
  lemma ParseValue(obj: JsonObject, isEmail: string -> bool)
    requires ParseSubmission(Some(obj), isEmail).Valid?
    ensures ParseSubmission(Some(obj), isEmail).value == Submission(
      NonEmptyText(obj, F.FacilityName).value, FacilityTypeField(obj, F.FacilityType).value,
      NonEmptyText(obj, F.Address).value, NonEmptyText(obj, F.City).value,
      NonEmptyText(obj, F.ContactName).value, NonEmptyText(obj, F.Role).value,
      EmailText(obj, F.Email, isEmail).value, NonEmptyText(obj, F.Phone).value,
      OptionalTrimmedText(obj, F.FacilitySize).value, OptionalTrimmedText(obj, F.Notes).value,
      OptionalText(obj, F.Website).value, OptionalInteger(obj, F.FormStartedAt).value)
  {
  }

  /**
   * An accepted record holds the trimmed strings: its required text fields
   * are non-empty and trimmed, and each is the trim of what was sent.
   */
  lemma ParseTrims(obj: JsonObject, isEmail: string -> bool)
    requires ParseSubmission(Some(obj), isEmail).Valid?
    ensures WellFormed(ParseSubmission(Some(obj), isEmail).value, isEmail)
    ensures var sub := ParseSubmission(Some(obj), isEmail).value;
            && TrimmedFrom(obj, F.FacilityName, sub.facilityName) && TrimmedFrom(obj, F.Address, sub.address)
            && TrimmedFrom(obj, F.City, sub.city) && TrimmedFrom(obj, F.ContactName, sub.contactName)
            && TrimmedFrom(obj, F.Role, sub.role) && TrimmedFrom(obj, F.Phone, sub.phone)
            && TrimmedFrom(obj, F.Email, sub.email)
  {
    ParseFields(obj, isEmail);
    ParseValue(obj, isEmail);
    NonEmptyTextValue(obj, F.FacilityName);
    NonEmptyTextValue(obj, F.Address);
    NonEmptyTextValue(obj, F.City);
    NonEmptyTextValue(obj, F.ContactName);
    NonEmptyTextValue(obj, F.Role);
    NonEmptyTextValue(obj, F.Phone);
  }

  const ALL_FIELDS: set<F.Field> := {
    F.FacilityName, F.FacilityType, F.Address, F.City, F.ContactName, F.Role,
    F.Email, F.Phone, F.FacilitySize, F.Notes, F.Website, F.FormStartedAt }

  /** What a record puts under one key, if anything. */
  function EncodeField(sub: Submission, f: F.Field): Option<Json> {
    match f
    case FacilityName => Some(JString(sub.facilityName))
    case FacilityType => Some(JString(FacilityTypeName(sub.facilityType)))
    case Address => Some(JString(sub.address))
    case City => Some(JString(sub.city))
    case ContactName => Some(JString(sub.contactName))
    case Role => Some(JString(sub.role))
    case Email => Some(JString(sub.email))
    case Phone => Some(JString(sub.phone))
    case FacilitySize => if sub.facilitySize.Some? then Some(JString(sub.facilitySize.value)) else None
    case Notes => if sub.notes.Some? then Some(JString(sub.notes.value)) else None
    case Website => if sub.website.Some? then Some(JString(sub.website.value)) else None
    case FormStartedAt => if sub.formStartedAt.Some? then Some(JInteger(sub.formStartedAt.value)) else None
  }

  /** A record written back as the JSON object a client would send for it. */
  function Encode(sub: Submission): JsonObject {
    map f | f in ALL_FIELDS && EncodeField(sub, f).Some? :: EncodeField(sub, f).value
  }

  lemma EncodeLookup(sub: Submission, f: F.Field)
    ensures f in Encode(sub) <==> EncodeField(sub, f).Some?
    ensures f in Encode(sub) ==> Encode(sub)[f] == EncodeField(sub, f).value
  {
  }

  lemma EncodeFilled(sub: Submission, f: F.Field, v: string)
    requires EncodeField(sub, f) == Some(JString(v)) && Filled(v)
    ensures NonEmptyText(Encode(sub), f) == Valid(v)
  {
    EncodeLookup(sub, f);
    TrimOfTrimmed(v);
  }

  lemma EncodeOptional(sub: Submission, f: F.Field, v: Option<string>)
    requires EncodeField(sub, f) == if v.Some? then Some(JString(v.value)) else None
    requires v.Some? ==> IsTrimmed(v.value)
    ensures OptionalTrimmedText(Encode(sub), f) == Valid(v)
  {
    EncodeLookup(sub, f);
    if v.Some? {
      TrimOfTrimmed(v.value);
    }
  }

  /** Each field of `obj` passes its check and yields the matching field of `sub`. */
  ghost predicate FieldsYield(obj: JsonObject, isEmail: string -> bool, sub: Submission) {
    && NonEmptyText(obj, F.FacilityName) == Valid(sub.facilityName)
    && FacilityTypeField(obj, F.FacilityType) == Valid(sub.facilityType)
    && NonEmptyText(obj, F.Address) == Valid(sub.address)
    && NonEmptyText(obj, F.City) == Valid(sub.city)
    && NonEmptyText(obj, F.ContactName) == Valid(sub.contactName)
    && NonEmptyText(obj, F.Role) == Valid(sub.role)
    && EmailText(obj, F.Email, isEmail) == Valid(sub.email)
    && NonEmptyText(obj, F.Phone) == Valid(sub.phone)
    && OptionalTrimmedText(obj, F.FacilitySize) == Valid(sub.facilitySize)
    && OptionalTrimmedText(obj, F.Notes) == Valid(sub.notes)
    && OptionalText(obj, F.Website) == Valid(sub.website)
    && OptionalInteger(obj, F.FormStartedAt) == Valid(sub.formStartedAt)
  }

  lemma ParseFromFields(obj: JsonObject, isEmail: string -> bool, sub: Submission)
    requires FieldsYield(obj, isEmail, sub)
    ensures ParseSubmission(Some(obj), isEmail) == Valid(sub)
  {
  }

  lemma EncodeYieldsText(sub: Submission)
    requires Filled(sub.facilityName) && Filled(sub.address) && Filled(sub.city)
    requires Filled(sub.contactName) && Filled(sub.role) && Filled(sub.phone)
    ensures NonEmptyText(Encode(sub), F.FacilityName) == Valid(sub.facilityName)
    ensures NonEmptyText(Encode(sub), F.Address) == Valid(sub.address)
    ensures NonEmptyText(Encode(sub), F.City) == Valid(sub.city)
    ensures NonEmptyText(Encode(sub), F.ContactName) == Valid(sub.contactName)
    ensures NonEmptyText(Encode(sub), F.Role) == Valid(sub.role)
    ensures NonEmptyText(Encode(sub), F.Phone) == Valid(sub.phone)
  {
    EncodeFilled(sub, F.FacilityName, sub.facilityName);
    EncodeFilled(sub, F.Address, sub.address);
    EncodeFilled(sub, F.City, sub.city);
    EncodeFilled(sub, F.ContactName, sub.contactName);
    EncodeFilled(sub, F.Role, sub.role);
    EncodeFilled(sub, F.Phone, sub.phone);
  }

  lemma EncodeYieldsRest(sub: Submission, isEmail: string -> bool)
    requires IsTrimmed(sub.email) && isEmail(sub.email)
    requires sub.facilitySize.Some? ==> IsTrimmed(sub.facilitySize.value)
    requires sub.notes.Some? ==> IsTrimmed(sub.notes.value)
    ensures FacilityTypeField(Encode(sub), F.FacilityType) == Valid(sub.facilityType)
    ensures EmailText(Encode(sub), F.Email, isEmail) == Valid(sub.email)
    ensures OptionalTrimmedText(Encode(sub), F.FacilitySize) == Valid(sub.facilitySize)
    ensures OptionalTrimmedText(Encode(sub), F.Notes) == Valid(sub.notes)
    ensures OptionalText(Encode(sub), F.Website) == Valid(sub.website)
    ensures OptionalInteger(Encode(sub), F.FormStartedAt) == Valid(sub.formStartedAt)
  {
    EncodeLookup(sub, F.FacilityType);
    FacilityTypeRoundTrip(sub.facilityType);
    EncodeLookup(sub, F.Email);
    TrimOfTrimmed(sub.email);
    EncodeOptional(sub, F.FacilitySize, sub.facilitySize);
    EncodeOptional(sub, F.Notes, sub.notes);
    EncodeLookup(sub, F.Website);
    EncodeLookup(sub, F.FormStartedAt);
  }

  /** Validating an accepted record again accepts it unchanged. */
  lemma ParseEncode(sub: Submission, isEmail: string -> bool)
    requires WellFormed(sub, isEmail)
    ensures ParseSubmission(Some(Encode(sub)), isEmail) == Valid(sub)
  {
    EncodeYieldsText(sub);
    EncodeYieldsRest(sub, isEmail);
    ParseFromFields(Encode(sub), isEmail, sub);
  }

  // ---------------------------------------------------------------------
  // Anti-bot gate
  // ---------------------------------------------------------------------

  /** Submissions faster than this many milliseconds are treated as automated. */
  const MIN_FILL_MS := 1500

  /** `startedAt ? Date.now() - startedAt : 0` with `startedAt = formStartedAt ?? 0`. */
  function ElapsedMs(sub: Submission, now: int): int {
    var startedAt := sub.formStartedAt.GetOr(0);
    if startedAt != 0 then now - startedAt else 0
  }

  /** `Boolean(data.website?.trim())` */
  predicate HoneypotFilled(sub: Submission) {
    sub.website.Some? && !IsBlank(sub.website.value)
  }

  predicate IsLikelyBot(sub: Submission, now: int) {
    HoneypotFilled(sub) || (0 < ElapsedMs(sub, now) < MIN_FILL_MS)
  }

  /**
   * A submission counts as automated exactly when the honeypot holds a
   * non-whitespace character, or a non-zero start time lies less than
   * 1500 ms in the past (a start time in the future passes).
   */
  lemma BotGate(sub: Submission, now: int)
    ensures IsLikelyBot(sub, now) <==>
      || (sub.website.Some? && !AllSpace(sub.website.value))
      || (sub.formStartedAt.Some? && sub.formStartedAt.value != 0
          && now - MIN_FILL_MS < sub.formStartedAt.value < now)
  {
    if sub.website.Some? {
      BlankIffAllSpace(sub.website.value);
    }
  }

  /** The threshold itself: 1499 ms is too fast, 1500 ms passes. */
  lemma TimingBoundary(sub: Submission, startedAt: int)
    requires !HoneypotFilled(sub) && sub.formStartedAt == Some(startedAt) && startedAt != 0
    ensures IsLikelyBot(sub, startedAt + 1499)
    ensures !IsLikelyBot(sub, startedAt + 1500)
    ensures !IsLikelyBot(sub, startedAt)
  {
  }

  // ---------------------------------------------------------------------
  // Configuration
  // ---------------------------------------------------------------------

  const DEFAULT_RECIPIENT := "retread_vigor2f@icloud.com"
  const DEFAULT_SMTP_PORT := "587"
  const SMTPS_PORT := 465

  /** The variables `requiredEnv` is asked for. */
  const REQUIRED_ENV: seq<string> := ["EMAIL_FROM", "SMTP_HOST", "SMTP_USER", "SMTP_PASS"]

  datatype SmtpSettings = SmtpSettings(host: string, port: int, secure: bool, user: string, pass: string)
  datatype MailConfig = MailConfig(to: string, from: string, smtp: SmtpSettings)

  /** `process.env[name] ?? fallback` */
  function EnvOr(env: map<string, string>, name: string, fallback: string): string {
    if name in env then env[name] else fallback
  }

  /** `requiredEnv(name)`: `None` stands for the thrown error (unset or empty). */
  function RequiredEnv(env: map<string, string>, name: string): Option<string> {
    if name in env && env[name] != "" then Some(env[name]) else None
  }

  /** Spelled "true" in any mix of upper and lower case. */
  predicate SpellsTrue(s: string) {
    |s| == 4 && s[0] in "tT" && s[1] in "rR" && s[2] in "uU" && s[3] in "eE"
  }

  lemma LowerCharIs(c: char, lower: char, upper: char)
    requires 'a' <= lower <= 'z' && upper as int == lower as int - 32
    ensures LowerChar(c) == lower <==> c == lower || c == upper
  {
  }

  lemma LowerIsTrue(s: string)
    ensures ToLower(s) == "true" <==> SpellsTrue(s)
  {
    var l := ToLower(s);
    if |s| == 4 {
      assert l[0] == LowerChar(s[0]) && l[1] == LowerChar(s[1]);
      assert l[2] == LowerChar(s[2]) && l[3] == LowerChar(s[3]);
      LowerCharIs(s[0], 't', 'T');
      LowerCharIs(s[1], 'r', 'R');
      LowerCharIs(s[2], 'u', 'U');
      LowerCharIs(s[3], 'e', 'E');
    }
  }

  /**
   * The transport settings and addresses. `None` stands for a throw of
   * `requiredEnv`; `toNumber` is `Number()` on the port string.
   */
  function ResolveConfig(env: map<string, string>, toNumber: string -> int): (r: Option<MailConfig>)
    ensures r.Some? <==> forall name | name in REQUIRED_ENV :: name in env && env[name] != ""
    ensures r.Some? ==> r.value.to == (if "EMAIL_TO" in env then env["EMAIL_TO"] else DEFAULT_RECIPIENT)
    ensures r.Some? ==> (r.value.from == env["EMAIL_FROM"] && r.value.smtp.host == env["SMTP_HOST"]
                         && r.value.smtp.user == env["SMTP_USER"] && r.value.smtp.pass == env["SMTP_PASS"])
    ensures r.Some? ==> r.value.smtp.port == toNumber(EnvOr(env, "SMTP_PORT", DEFAULT_SMTP_PORT))
    ensures r.Some? ==> (r.value.smtp.secure <==>
                         (SpellsTrue(EnvOr(env, "SMTP_SECURE", "")) || r.value.smtp.port == SMTPS_PORT))
  {
    var to := EnvOr(env, "EMAIL_TO", DEFAULT_RECIPIENT);
    var from :- RequiredEnv(env, "EMAIL_FROM");
    var host :- RequiredEnv(env, "SMTP_HOST");
    var port := toNumber(EnvOr(env, "SMTP_PORT", DEFAULT_SMTP_PORT));
    LowerIsTrue(EnvOr(env, "SMTP_SECURE", ""));
    var secure := ToLower(EnvOr(env, "SMTP_SECURE", "")) == "true" || port == SMTPS_PORT;
    var user :- RequiredEnv(env, "SMTP_USER");
    var pass :- RequiredEnv(env, "SMTP_PASS");
    Some(MailConfig(to, from, SmtpSettings(host, port, secure, user, pass)))
  }

  // ---------------------------------------------------------------------
  // HTML escaping
  // ---------------------------------------------------------------------

  /** `s.replaceAll(target, rep)` for a one-character `target`. */
  function ReplaceAll(s: string, target: char, rep: string): (r: string)
    ensures target !in rep ==> target !in r
    ensures target !in s ==> r == s
    decreases |s|
  {
    if s == [] then []
    else (if s[0] == target then rep else [s[0]]) + ReplaceAll(s[1..], target, rep)
  }

  lemma {:induction false} ReplaceAllConcat(a: string, b: string, target: char, rep: string)
    ensures ReplaceAll(a + b, target, rep) == ReplaceAll(a, target, rep) + ReplaceAll(b, target, rep)
    decreases |a|
  {
    if a == [] {
      assert a + b == b;
    } else {
      assert (a + b)[1..] == a[1..] + b;
      ReplaceAllConcat(a[1..], b, target, rep);
    }
  }

  /** `escapeHtml`: five `replaceAll` passes, the ampersand first. */
  function EscapeHtml(unsafe: string): string {
    ReplaceAll(ReplaceAll(ReplaceAll(ReplaceAll(ReplaceAll(
      unsafe, '&', "&amp;"), '<', "&lt;"), '>', "&gt;"), '"', "&quot;"), '\'', "&#039;")
  }

  /** The entity one character stands for in HTML text. */
  function EscapeChar(c: char): string {
    match c
    case '&' => "&amp;"
    case '<' => "&lt;"
    case '>' => "&gt;"
    case '"' => "&quot;"
    case '\'' => "&#039;"
    case _ => [c]
  }

  /** The characters that would be read as markup. */
  predicate IsMarkup(c: char) {
    c == '<' || c == '>' || c == '"' || c == '\''
  }

  /** Text in which no character would be read as markup. */
  predicate NoMarkup(s: string) {
    forall i | 0 <= i < |s| :: !IsMarkup(s[i])
  }

  /** Escaping one character at a time: markup never survives. */
  function EscapeEach(s: string): (r: string)
    ensures NoMarkup(r)
    decreases |s|
  {
    if s == [] then [] else EscapeChar(s[0]) + EscapeEach(s[1..])
  }

  lemma EscapeHtmlConcat(a: string, b: string)
    ensures EscapeHtml(a + b) == EscapeHtml(a) + EscapeHtml(b)
  {
    var a1, b1 := ReplaceAll(a, '&', "&amp;"), ReplaceAll(b, '&', "&amp;");
    ReplaceAllConcat(a, b, '&', "&amp;");
    var a2, b2 := ReplaceAll(a1, '<', "&lt;"), ReplaceAll(b1, '<', "&lt;");
    ReplaceAllConcat(a1, b1, '<', "&lt;");
    var a3, b3 := ReplaceAll(a2, '>', "&gt;"), ReplaceAll(b2, '>', "&gt;");
    ReplaceAllConcat(a2, b2, '>', "&gt;");
    var a4, b4 := ReplaceAll(a3, '"', "&quot;"), ReplaceAll(b3, '"', "&quot;");
    ReplaceAllConcat(a3, b3, '"', "&quot;");
    ReplaceAllConcat(a4, b4, '\'', "&#039;");
  }

  lemma ReplaceAllOne(c: char, target: char, rep: string)
    ensures ReplaceAll([c], target, rep) == if c == target then rep else [c]
  {
    assert [c][1..] == [];
  }

  lemma EscapeHtmlChar(c: char)
    ensures EscapeHtml([c]) == EscapeChar(c)
  {
    ReplaceAllOne(c, '&', "&amp;");
    if c == '&' {
      assert '<' !in "&amp;" && '>' !in "&amp;" && '"' !in "&amp;" && '\'' !in "&amp;";
    } else {
      ReplaceAllOne(c, '<', "&lt;");
      if c == '<' {
        assert '>' !in "&lt;" && '"' !in "&lt;" && '\'' !in "&lt;";
      } else {
        ReplaceAllOne(c, '>', "&gt;");
        if c == '>' {
          assert '"' !in "&gt;" && '\'' !in "&gt;";
        } else {
          ReplaceAllOne(c, '"', "&quot;");
          ReplaceAllOne(c, '\'', "&#039;");
        }
      }
    }
  }

  /**
   * Because the ampersand is replaced first, the chain of passes is the
   * one-character-at-a-time escape: no entity is escaped twice.
   */
  lemma {:induction false} EscapeHtmlIsPerCharacter(s: string)
    ensures EscapeHtml(s) == EscapeEach(s)
    decreases |s|
  {
    if s != [] {
      assert s == [s[0]] + s[1..];
      EscapeHtmlConcat([s[0]], s[1..]);
      EscapeHtmlChar(s[0]);
      EscapeHtmlIsPerCharacter(s[1..]);
    }
  }

  /** Decodes the five entities `escapeHtml` produces; everything else is kept. */
  function UnescapeHtml(s: string): string
    decreases |s|
  {
    if s == [] then []
    else if "&amp;" <= s then "&" + UnescapeHtml(s[5..])
    else if "&lt;" <= s then "<" + UnescapeHtml(s[4..])
    else if "&gt;" <= s then ">" + UnescapeHtml(s[4..])
    else if "&quot;" <= s then "\"" + UnescapeHtml(s[6..])
    else if "&#039;" <= s then "'" + UnescapeHtml(s[6..])
    else [s[0]] + UnescapeHtml(s[1..])
  }

  lemma {:induction false} UnescapeEscapeEach(s: string)
    ensures UnescapeHtml(EscapeEach(s)) == s
    decreases |s|
  {
    if s != [] {
      var c, rest := s[0], EscapeEach(s[1..]);
      var e := EscapeChar(c) + rest;
      assert EscapeEach(s) == e;
      UnescapeEscapeEach(s[1..]);
      assert e[|EscapeChar(c)|..] == rest;
      if c == '&' {
        assert "&amp;" <= e;
      } else if c == '<' {
        assert e[1] == 'l';
        assert "&lt;" <= e;
      } else if c == '>' {
        assert e[1] == 'g';
        assert "&gt;" <= e;
      } else if c == '"' {
        assert e[1] == 'q';
        assert "&quot;" <= e;
      } else if c == '\'' {
        assert e[1] == '#';
        assert "&#039;" <= e;
      } else {
        assert e[0] == c;
      }
      assert s == [c] + s[1..];
    }
  }

  /** What the source's `escapeHtml` guarantees of every cell it renders. */
  lemma EscapeHtmlSafe(s: string)
    ensures NoMarkup(EscapeHtml(s))
    ensures UnescapeHtml(EscapeHtml(s)) == s
  {
    EscapeHtmlIsPerCharacter(s);
    UnescapeEscapeEach(s);
  }

  // ---------------------------------------------------------------------
  // The message
  // ---------------------------------------------------------------------

  /** The e-mail subject, also the first line of the text body and the HTML heading. */
  const HEADING := "New CWPS Pre-Registration Submission"
  const FOOTER := "\U{2014} Sent from the CWPS pre-registration landing page"
  const NOT_PROVIDED := "(not provided)"

  /** `value?.trim() || "(not provided)"`: always a non-empty trimmed cell. */
  function OrNotProvided(value: Option<string>): (r: string)
    ensures r != [] && IsTrimmed(r)
    ensures r == NOT_PROVIDED || (value.Some? && r == Trim(value.value))
    ensures value.None? || AllSpace(value.value) ==> r == NOT_PROVIDED
    ensures value.Some? && !AllSpace(value.value) ==> r == Trim(value.value)
  {
    BlankIffAllSpace(value.GetOr(""));
    if value.Some? && !IsBlank(value.value) then Trim(value.value) else NOT_PROVIDED
  }

  /** The table's labels, in the order the rows appear. */
  const LABELS: seq<string> := [
    "Submitted At (UTC)",
    "Facility Name",
    "Facility Type",
    "Physical Address",
    "City / Location",
    "Contact Person Full Name",
    "Role / Position",
    "Email Address",
    "Phone Number",
    "Estimated Facility Size",
    "Additional Notes"
  ]

  /** The `lines` table: one label/value row per label, in the labels' order. */
  function Lines(sub: Submission, submittedAt: string): (rows: seq<(string, string)>)
    ensures |rows| == |LABELS|
  {
    [
      (LABELS[0], submittedAt),
      (LABELS[1], sub.facilityName),
      (LABELS[2], FacilityTypeName(sub.facilityType)),
      (LABELS[3], sub.address),
      (LABELS[4], sub.city),
      (LABELS[5], sub.contactName),
      (LABELS[6], sub.role),
      (LABELS[7], sub.email),
      (LABELS[8], sub.phone),
      (LABELS[9], OrNotProvided(sub.facilitySize)),
      (LABELS[10], OrNotProvided(sub.notes))
    ]
  }

  /**
   * The table row by row: the submission time first, then the eight
   * required fields as validated, then the two optional fields never left
   * empty, each under its own label. The honeypot and the start time are
   * not shown.
   */
  lemma LinesTable(sub: Submission, submittedAt: string)
    ensures var rows := Lines(sub, submittedAt);
            && |rows| == 11
            && (forall i | 0 <= i < |rows| :: rows[i].0 == LABELS[i])
            && rows[0].1 == submittedAt
            && rows[1].1 == sub.facilityName && rows[2].1 == FacilityTypeName(sub.facilityType)
            && rows[3].1 == sub.address && rows[4].1 == sub.city
            && rows[5].1 == sub.contactName && rows[6].1 == sub.role
            && rows[7].1 == sub.email && rows[8].1 == sub.phone
            && rows[9].1 == OrNotProvided(sub.facilitySize) && rows[10].1 == OrNotProvided(sub.notes)
  {
  }

  /** Every row has a label of its own, so no row can be mistaken for another. */
  lemma LabelsDistinct(sub: Submission, submittedAt: string)
    ensures var rows := Lines(sub, submittedAt);
            forall i, j | 0 <= i < j < |rows| :: rows[i].0 != rows[j].0
  {
    var rows := Lines(sub, submittedAt);
    forall i, j | 0 <= i < j < |rows|
      ensures rows[i].0 != rows[j].0
    {
      assert rows[i].0 == LABELS[i] && rows[j].0 == LABELS[j];
      LabelsDiffer(i, j);
    }
  }

  lemma LabelsDiffer(i: nat, j: nat)
    requires i < j < |LABELS|
    ensures LABELS[i] != LABELS[j]
  {
  }

  /** One row of the text body: `${label}: ${value}`, the value as sent. */
  function TextLine(row: (string, string)): string {
    row.0 + ": " + row.1
  }

  function TextLines(rows: seq<(string, string)>): (lines: seq<string>)
    ensures |lines| == |rows|
    ensures forall i | 0 <= i < |rows| :: lines[i] == TextLine(rows[i])
  {
    seq(|rows|, i requires 0 <= i < |rows| => TextLine(rows[i]))
  }

  /** The heading, a blank line, one line per row, a blank line and the footer. */
  function TextParts(rows: seq<(string, string)>): (parts: seq<string>)
    ensures |parts| == |rows| + 4
  {
    [HEADING, ""] + TextLines(rows) + ["", FOOTER]
  }

  /** `textBody`: the parts joined with line feeds. */
  function TextBody(rows: seq<(string, string)>): string {
    Join(TextParts(rows), "\n")
  }

  /**
   * The text body is the heading and a blank line, the rows one per line,
   * then a blank line and the footer.
   */
  lemma TextBodyLayout(rows: seq<(string, string)>)
    requires rows != []
    ensures TextBody(rows) == HEADING + "\n\n" + Join(TextLines(rows), "\n") + "\n\n" + FOOTER
  {
    var lines := TextLines(rows);
    var head: seq<string> := [HEADING, ""];
    var foot: seq<string> := ["", FOOTER];
    assert TextParts(rows) == head + (lines + foot);
    JoinAppend(head, lines + foot, "\n");
    JoinAppend(lines, foot, "\n");
    assert Join(head, "\n") == HEADING + "\n" + "";
    assert Join(foot, "\n") == "" + "\n" + FOOTER;
  }

  /** Row `i` of the table stands on a line of its own, between its neighbours. */
  lemma TextBodyRow(rows: seq<(string, string)>, i: nat)
    requires i < |rows|
    ensures var lines := TextLines(rows);
            Join(lines, "\n") == (if i == 0 then "" else Join(lines[..i], "\n") + "\n") + TextLine(rows[i])
                                + (if i == |rows| - 1 then "" else "\n" + Join(lines[i + 1..], "\n"))
  {
    JoinAt(TextLines(rows), "\n", i);
  }

  // The HTML template's fixed text, around and between the interpolated cells.
  const HTML_LEAD := "\n      "
  const HTML_HEAD :=
    "<div style=\"" + "font-family: ui-sans-serif, system-ui, -apple-system, Segoe UI, Roboto, Helvetica, Arial; line-height: 1.5; color: #0f172a;\">\n"
    + "        <h2 style=\"margin:0 0 12px 0;\">New CWPS Pre-Registration Submission</h2>\n"
    + "        <table style=\"width:100%; border-collapse: collapse;\">\n"
    + "          <tbody>\n"
    + "            "
  const HTML_TAIL :=
    "\n"
    + "          </tbody>\n"
    + "        </table>\n"
    + "        <p style=\"margin:16px 0 0 0; font-size: 12px; color:#475569;\">\n"
    + "          \U{2014} Sent from the CWPS pre-registration landing page\n"
    + "        </p>\n"
    + "      </div>"
  const HTML_TRAIL := "\n    "
  const ROW_OPEN :=
    "\n"
    + "                  <tr>\n"
    + "                    <td style=\"padding:10px 12px; border:1px solid #e2e8f0; width: 220px; background:#f8fafc; font-weight:600; vertical-align: top;\">\n"
    + "                      "
  const ROW_MIDDLE :=
    "\n"
    + "                    </td>\n"
    + "                    <td style=\"padding:10px 12px; border:1px solid #e2e8f0; vertical-align: top;\">\n"
    + "                      "
  const ROW_CLOSE :=
    "\n"
    + "                    </td>\n"
    + "                  </tr>"

  /** `${escapeHtml(text)}`: a cell holds no markup and decodes to the text it shows. */
  function HtmlCell(text: string): (cell: string)
    ensures NoMarkup(cell)
    ensures UnescapeHtml(cell) == text
    ensures cell == EscapeEach(text)
  {
    EscapeHtmlSafe(text);
    EscapeHtmlIsPerCharacter(text);
    EscapeHtml(text)
  }

  /** One `<tr>`: the label cell, then the value cell. */
  function HtmlRow(row: (string, string)): string {
    ROW_OPEN + HtmlCell(row.0) + ROW_MIDDLE + HtmlCell(row.1) + ROW_CLOSE
  }

  /** `lines.map(...)`: each row rendered on its own. */
  function RenderRows(rows: seq<(string, string)>): (rendered: seq<string>)
    ensures |rendered| == |rows|
    ensures forall i | 0 <= i < |rows| :: rendered[i] == HtmlRow(rows[i])
  {
    seq(|rows|, i requires 0 <= i < |rows| => HtmlRow(rows[i]))
  }

  lemma RenderRowsSlice(rows: seq<(string, string)>, lo: nat, hi: nat)
    requires lo <= hi <= |rows|
    ensures RenderRows(rows[lo..hi]) == RenderRows(rows)[lo..hi]
  {
    var a, b := RenderRows(rows[lo..hi]), RenderRows(rows)[lo..hi];
    assert |a| == |b|;
    forall k | 0 <= k < |a|
      ensures a[k] == b[k]
    {
      assert rows[lo..hi][k] == rows[lo + k];
    }
  }

  /** `.join("")` of the rendered rows. */
  function HtmlRows(rows: seq<(string, string)>): string {
    Join(RenderRows(rows), "")
  }

  /** Row `i` is rendered in place, after the rows before it and before the rows after it. */
  lemma HtmlRowsAt(rows: seq<(string, string)>, i: nat)
    requires i < |rows|
    ensures HtmlRows(rows) == HtmlRows(rows[..i]) + HtmlRow(rows[i]) + HtmlRows(rows[i + 1..])
  {
    var rendered := RenderRows(rows);
    ConcatAt(rendered, i);
    RenderRowsSlice(rows, 0, i);
    RenderRowsSlice(rows, i + 1, |rows|);
    assert rows[0..i] == rows[..i] && rows[i + 1..|rows|] == rows[i + 1..];
    assert rendered[0..i] == rendered[..i] && rendered[i + 1..|rows|] == rendered[i + 1..];
  }

  lemma HtmlTemplateEnds()
    ensures HTML_HEAD != [] && HTML_HEAD[0] == '<'
    ensures HTML_TAIL != [] && HTML_TAIL[|HTML_TAIL| - 1] == '>'
    ensures AllSpace(HTML_LEAD) && AllSpace(HTML_TRAIL)
  {
  }

  /**
   * `htmlBody`: the template trimmed. Trimming removes exactly the blank
   * lead and trail of the template literal, so the body opens with the
   * `<div>` and closes with its `</div>`.
   */
  function HtmlBody(rows: seq<(string, string)>): (html: string)
    ensures html == HTML_HEAD + HtmlRows(rows) + HTML_TAIL
  {
    var inner := HTML_HEAD + HtmlRows(rows) + HTML_TAIL;
    HtmlTemplateEnds();
    assert inner[0] == HTML_HEAD[0] && inner[|inner| - 1] == HTML_TAIL[|HTML_TAIL| - 1];
    TrimOfFramed(HTML_LEAD, inner, HTML_TRAIL);
    Trim(HTML_LEAD + inner + HTML_TRAIL)
  }

  // ---------------------------------------------------------------------
  // The request handler
  // ---------------------------------------------------------------------

  const INVALID_FORM_MESSAGE := "Please check the form fields and try again."
  const SERVER_ERROR_MESSAGE := "Server error while sending email. Please try again."

  /** The options given to `sendMail`. */
  datatype Mail = Mail(to: string, from: string, subject: string, text: string, html: string, replyTo: string)

  /** A message handed to a transport built from `smtp`. */
  datatype Delivery = Delivery(smtp: SmtpSettings, mail: Mail)

  /** The JSON body of a response: `{ ok: true }` or `{ error }`. */
  datatype Reply = Ack | Failure(error: string)

  datatype Response = Response(status: int, reply: Reply)

  const OK := Response(200, Ack)
  const BAD_REQUEST := Response(400, Failure(INVALID_FORM_MESSAGE))
  const SERVER_ERROR := Response(500, Failure(SERVER_ERROR_MESSAGE))

  /** What a request led to: the response, and the message handed to the transport, if any. */
  datatype Handled = Handled(response: Response, handedOff: Option<Delivery>)

  /** `${contactName} <${email}>` */
  function ReplyTo(sub: Submission): string {
    sub.contactName + " <" + sub.email + ">"
  }

  /** The message built for an accepted, human submission. */
  function Compose(sub: Submission, submittedAt: string, config: MailConfig): (d: Delivery)
    ensures d.smtp == config.smtp && d.mail.to == config.to && d.mail.from == config.from
    ensures d.mail.subject == HEADING
    ensures d.mail.text == TextBody(Lines(sub, submittedAt)) && d.mail.html == HtmlBody(Lines(sub, submittedAt))
    ensures d.mail.replyTo == ReplyTo(sub)
  {
    var rows := Lines(sub, submittedAt);
    Delivery(config.smtp, Mail(config.to, config.from, HEADING, TextBody(rows), HtmlBody(rows), ReplyTo(sub)))
  }

  /**
   * `POST`. `body` is the parsed request body (`None` when it is not a JSON
   * object), `now` is `Date.now()`, `submittedAt` the ISO string of the
   * current time, `env` the process environment, `toNumber` is `Number()`,
   * and `send(d)` tells whether handing `d` to the transport succeeded
   * (`false` for a throw from `createTransport` or `sendMail`).
   */
  function Post(body: Option<JsonObject>, isEmail: string -> bool, now: int, submittedAt: string,
                env: map<string, string>, toNumber: string -> int, send: Delivery -> bool): (h: Handled)
    ensures h.response == OK || h.response == BAD_REQUEST || h.response == SERVER_ERROR
    ensures h.response == BAD_REQUEST <==> ParseSubmission(body, isEmail).Invalid?
    ensures ParseSubmission(body, isEmail).Valid? && IsLikelyBot(ParseSubmission(body, isEmail).value, now)
            ==> h == Handled(OK, None)
    ensures ParseSubmission(body, isEmail).Valid? && !IsLikelyBot(ParseSubmission(body, isEmail).value, now)
            && ResolveConfig(env, toNumber).None?
            ==> h == Handled(SERVER_ERROR, None)
    ensures h.handedOff.Some? <==>
            && ParseSubmission(body, isEmail).Valid? && !IsLikelyBot(ParseSubmission(body, isEmail).value, now)
            && ResolveConfig(env, toNumber).Some?
    ensures h.handedOff.Some? ==>
            && h.handedOff.value == Compose(ParseSubmission(body, isEmail).value, submittedAt, ResolveConfig(env, toNumber).value)
            && (h.response == OK <==> send(h.handedOff.value))
  {
    match ParseSubmission(body, isEmail)
    case Invalid => Handled(BAD_REQUEST, None)
    case Valid(sub) =>
      if IsLikelyBot(sub, now) then Handled(OK, None)
      else
        match ResolveConfig(env, toNumber)
        case None => Handled(SERVER_ERROR, None)
        case Some(config) =>
          var d := Compose(sub, submittedAt, config);
          Handled(if send(d) then OK else SERVER_ERROR, Some(d))
  }

  /** A JSON object is answered with 400 exactly when it breaks the acceptance rule. */
  lemma PostRejects(obj: JsonObject, isEmail: string -> bool, now: int, submittedAt: string,
                    env: map<string, string>, toNumber: string -> int, send: Delivery -> bool)
    ensures Post(Some(obj), isEmail, now, submittedAt, env, toNumber, send).response == BAD_REQUEST
            <==> !Acceptable(obj, isEmail)
    ensures Post(None, isEmail, now, submittedAt, env, toNumber, send) == Handled(BAD_REQUEST, None)
  {
    ParseAcceptance(obj, isEmail);
  }

  /**
   * A message goes out only for an acceptable object from a person, and it
   * answers to the trimmed contact name and address that were sent.
   */
  lemma PostDelivery(obj: JsonObject, isEmail: string -> bool, now: int, submittedAt: string,
                     env: map<string, string>, toNumber: string -> int, send: Delivery -> bool)
    requires Post(Some(obj), isEmail, now, submittedAt, env, toNumber, send).handedOff.Some?
    ensures Acceptable(obj, isEmail)
    ensures var d := Post(Some(obj), isEmail, now, submittedAt, env, toNumber, send).handedOff.value;
            && d.mail.replyTo == Trim(obj[F.ContactName].s) + " <" + Trim(obj[F.Email].s) + ">"
            && d.mail.subject == HEADING
            && (forall name | name in REQUIRED_ENV :: name in env && env[name] != "")
  {
    ParseAcceptance(obj, isEmail);
    ParseTrims(obj, isEmail);
  }
}
