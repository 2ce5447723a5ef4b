/**
 * The form and the endpoint together: the payload the component sends
 * (`JSON.stringify(payload)` read back by `request.json()`), how the two
 * sides' checks relate, and how the endpoint's answer shows in the form.
 */
module Pipeline {
  import opened Wrappers
  import opened Text
  import opened Fields
  import R = Route
  import opened Form

  /** The JSON value the component sends under one key. */
  function SerializeField(p: Payload, f: Field): R.Json {
    if f == FormStartedAt then R.JInteger(p.formStartedAt) else R.JString(FieldText(p, f))
  }

  /**
   * The request body: every key of the payload, the texts as strings and
   * the start time as an integer.
   */
  function Serialize(p: Payload): (obj: R.JsonObject)
    ensures obj.Keys == R.ALL_FIELDS
    ensures forall f | f in obj && f != FormStartedAt :: obj[f] == R.JString(FieldText(p, f))
    ensures obj[FormStartedAt] == R.JInteger(p.formStartedAt)
  {
    var obj := map f | f in R.ALL_FIELDS :: SerializeField(p, f);
    assert FormStartedAt in obj;
    obj
  }

  /**
   * What the form checks implies what the schema checks, given the two
   * things the form leaves to the browser and to the schema: the type comes
   * from the list of options, and Zod's e-mail check accepts the address.
   */
  lemma ClientValidAccepted(p: Payload, isEmail: string -> bool)
    requires ClientValid(p)
    requires p.facilityType in R.FACILITY_TYPE_NAMES
    requires isEmail(Trim(p.email))
    ensures R.Acceptable(Serialize(p), isEmail)
  {
    var obj := Serialize(p);
    assert obj[FacilityName] == R.JString(p.facilityName) && obj[Address] == R.JString(p.address);
    assert obj[City] == R.JString(p.city) && obj[ContactName] == R.JString(p.contactName);
    assert obj[Role] == R.JString(p.role) && obj[Phone] == R.JString(p.phone);
    assert obj[FacilityType] == R.JString(p.facilityType) && obj[Email] == R.JString(p.email);
    assert obj[FacilitySize] == R.JString(p.facilitySize) && obj[Notes] == R.JString(p.notes);
    assert obj[Website] == R.JString(p.website);
  }

  /**
   * The other way round: when the endpoint would accept the payload, the
   * form's own check can object to nothing but the e-mail address (the
   * pattern and Zod's e-mail check are different tests).
   */
  lemma AcceptedLeavesOnlyEmail(p: Payload, isEmail: string -> bool, k: ErrorKey)
    requires R.Acceptable(Serialize(p), isEmail)
    requires Get(Validation(p), k).Some?
    ensures k == FieldKey(Email)
  {
    var obj := Serialize(p);
    assert obj[FacilityName] == R.JString(p.facilityName) && obj[Address] == R.JString(p.address);
    assert obj[City] == R.JString(p.city) && obj[ContactName] == R.JString(p.contactName);
    assert obj[Role] == R.JString(p.role) && obj[Phone] == R.JString(p.phone);
    assert obj[FacilityType] == R.JString(p.facilityType);
    ValidationEmptyBut(p);
    ErrorKeys(p, k);
  }

  /** Each required text field's check passes when the field holds more than whitespace. */
  lemma ValidationEmptyBut(p: Payload)
    requires !AllSpace(p.facilityName) && !AllSpace(p.address) && !AllSpace(p.city)
    requires !AllSpace(p.contactName) && !AllSpace(p.role) && !AllSpace(p.phone)
    requires p.facilityType != ""
    ensures forall f | f != Email :: Get(Validation(p), FieldKey(f)).None?
  {
    BlankIffAllSpace(p.facilityName);
    BlankIffAllSpace(p.address);
    BlankIffAllSpace(p.city);
    BlankIffAllSpace(p.contactName);
    BlankIffAllSpace(p.role);
    BlankIffAllSpace(p.phone);
  }

  /**
   * For a payload the component sent, the endpoint's bot test reads the
   * honeypot and the form's start time: it fires exactly when the hidden
   * field holds a non-whitespace character, or the form was started (at a
   * non-zero time) less than 1500 ms before `now`.
   */
  lemma SentPayloadBotGate(p: Payload, isEmail: string -> bool, now: int)
    requires R.ParseSubmission(Some(Serialize(p)), isEmail).Valid?
    ensures R.IsLikelyBot(R.ParseSubmission(Some(Serialize(p)), isEmail).value, now) <==>
            || !AllSpace(p.website)
            || (p.formStartedAt != 0 && now - R.MIN_FILL_MS < p.formStartedAt < now)
  {
    var obj := Serialize(p);
    var sub := R.ParseSubmission(Some(obj), isEmail).value;
    R.ParseValue(obj, isEmail);
    assert obj[Website] == R.JString(p.website);
    assert sub.website == Some(p.website);
    assert sub.formStartedAt == Some(p.formStartedAt);
    R.BotGate(sub, now);
  }

  /**
   * How the component sees a response: `res.ok` is a 2xx status, and the
   * body's `error` is there for a failure.
   */
  function ClientView(response: R.Response): (outcome: FetchOutcome)
    ensures outcome.Responded?
    ensures outcome.ok <==> 200 <= response.status < 300
    ensures outcome.error.Some? <==> response.reply.Failure?
    ensures response.reply.Failure? ==> outcome.error == Some(response.reply.error)
  {
    Responded(200 <= response.status < 300,
              if response.reply.Failure? then Some(response.reply.error) else None)
  }

  /**
   * Whatever the endpoint answers, the form shows it: success clears every
   * message, a 400 shows the endpoint's "check the form fields" banner, a
   * 500 its "server error" banner, and nothing else appears.
   */
  lemma PostAsShown(body: Option<R.JsonObject>, isEmail: string -> bool, now: int, submittedAt: string,
                    env: map<string, string>, toNumber: string -> int, send: R.Delivery -> bool,
                    before: FieldErrors)
    ensures var h := R.Post(body, isEmail, now, submittedAt, env, toNumber, send);
            var shown := ErrorsAfter(ClientView(h.response), before);
            && (shown == NO_ERRORS <==> h.response == R.OK)
            && (h.response == R.BAD_REQUEST ==> shown == NO_ERRORS.(form := Some(R.INVALID_FORM_MESSAGE)))
            && (h.response == R.SERVER_ERROR ==> shown == NO_ERRORS.(form := Some(R.SERVER_ERROR_MESSAGE)))
  {
    var h := R.Post(body, isEmail, now, submittedAt, env, toNumber, send);
    ResponseShown(h.response, before);
  }

  /** The three answers the endpoint gives, as the form shows them. */
  lemma ResponseShown(response: R.Response, before: FieldErrors)
    requires response == R.OK || response == R.BAD_REQUEST || response == R.SERVER_ERROR
    ensures var shown := ErrorsAfter(ClientView(response), before);
            && (shown == NO_ERRORS <==> response == R.OK)
            && (response == R.BAD_REQUEST ==> shown == NO_ERRORS.(form := Some(R.INVALID_FORM_MESSAGE)))
            && (response == R.SERVER_ERROR ==> shown == NO_ERRORS.(form := Some(R.SERVER_ERROR_MESSAGE)))
  {
  }

  /**
   * A sender the endpoint takes for a bot, by the honeypot or by the fill
   * time, is answered as if all went well: the form shows no message, and
   * nothing is handed to the transport.
   */
  lemma BotSeesSuccess(p: Payload, isEmail: string -> bool, now: int, submittedAt: string,
                       env: map<string, string>, toNumber: string -> int, send: R.Delivery -> bool)
    requires R.ParseSubmission(Some(Serialize(p)), isEmail).Valid?
    requires R.IsLikelyBot(R.ParseSubmission(Some(Serialize(p)), isEmail).value, now)
    ensures var h := R.Post(Some(Serialize(p)), isEmail, now, submittedAt, env, toNumber, send);
            && h.handedOff.None?
            && ClientView(h.response) == Responded(true, None)
  {
  }

  /**
   * From the form to the mailbox: a payload that passes the form's check,
   * with a listed facility type, an address Zod accepts, a blank honeypot
   * and a start time that is 0, at least 1500 ms ago or not before `now`
   * (the browser's clock may run ahead of the server's), is mailed with the configured
   * settings, and the form reports success exactly when the transport
   * takes the message.
   */
  lemma SubmissionDelivered(p: Payload, isEmail: string -> bool, now: int, submittedAt: string,
                            env: map<string, string>, toNumber: string -> int, send: R.Delivery -> bool)
    requires ClientValid(p) && p.facilityType in R.FACILITY_TYPE_NAMES && isEmail(Trim(p.email))
    requires AllSpace(p.website) && !(p.formStartedAt != 0 && now - R.MIN_FILL_MS < p.formStartedAt < now)
    requires R.ResolveConfig(env, toNumber).Some?
    ensures var h := R.Post(Some(Serialize(p)), isEmail, now, submittedAt, env, toNumber, send);
            && h.handedOff.Some?
            && h.handedOff.value.smtp == R.ResolveConfig(env, toNumber).value.smtp
            && (ClientView(h.response).ok <==> send(h.handedOff.value))
  {
    var obj := Serialize(p);
    ClientValidAccepted(p, isEmail);
    R.ParseAcceptance(obj, isEmail);
    SentPayloadBotGate(p, isEmail, now);
    assert !R.IsLikelyBot(R.ParseSubmission(Some(obj), isEmail).value, now);
  }
}
