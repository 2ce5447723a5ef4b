# Pre-registration pipeline, modelled in Dafny

The landing page collects a facility's pre-registration in a client-side
form (`PreRegisterForm`) and posts it as JSON to `POST /api/pre-register`.
The endpoint validates it again with a Zod schema, silently drops likely
bots (a honeypot field and a 1500 ms minimum fill time), reads the mail
settings from the environment, renders an 11-row label/value table as a
plain-text and an HTML body, hands the message to an SMTP transport and
answers 200, 400 or 500.

The model has six modules:

- `Wrappers`: `Option`, with `GetOr` for JavaScript's `??`.
- `Text`: JavaScript's `trim` over the ECMAScript whitespace set, `join`,
  and the ASCII part of `toLowerCase`.
- `Fields`: the twelve keys of a payload.
- `Route`: the endpoint as a pure function `Post`. The schema is
  `ParseSubmission`, the bot gate is `IsLikelyBot`, `requiredEnv` and the
  settings are `ResolveConfig`, the table is `Lines`, and the bodies are
  `TextBody` and `HtmlBody`, with the escaper `EscapeHtml`. What the handler
  reads from outside is passed in as parameters:
  - the parsed body;
  - Zod's e-mail check;
  - `Date.now()` and the ISO time string;
  - the environment;
  - `Number()`;
  - whether the transport took the message.
- `Form`: the component.
  - `IsEmailLike` is the pattern test.
  - `Validate` is a method that builds the error object one property at a
    time. It is proved equal to the field-by-field specification
    `Validation`.
  - The class `PreRegisterForm` holds `payload`, `submitting`, `submitted`
    and `errors`. Its methods `Edit`, `BeginSubmit`, `FinishSubmit` and
    `OnSubmit` change them as the component's state setters do. `CanSubmit`
    enables the button.
- `Pipeline`: the two sides together.
  - `Serialize` is the body the component sends.
  - Lemmas relate the form's check to the schema, the sent start time to
    the bot gate, and each response to what the form then shows.

The model follows what the code does, including where it is narrower than a reader might expect:

- Any 500 carries the one message "Server error while sending email. Please
  try again.". That covers a missing variable and a transport failure alike.
  No message names the missing setting, and transport errors are not sorted
  into categories.
- The honeypot trips only when it holds a non-whitespace character. A field
  of blanks passes.
- A `fetch` that throws is not caught. The error object stays as validation
  left it (empty), so no banner is shown; only the `finally` runs and clears
  `submitting`.
- `EMAIL_TO` set to the empty string is used as it is, because `??` only
  replaces an unset variable.
- The form accepts any non-empty `facilityType` string, and its e-mail
  pattern is not Zod's e-mail check. So a payload the form passes can still
  be refused with 400. `Pipeline.ClientValidAccepted` names the two extra
  conditions under which the endpoint accepts what the form passes.

## Model

| member | source | states |
|---|---|---|
| Text.Trim | src/app/api/pre-register/route.ts:14 | the result of `trim` begins and ends with a non-whitespace character, or is empty |
| Text.TrimFrame | src/app/api/pre-register/route.ts:14 | the input is the trimmed string framed by whitespace on both sides |
| Text.TrimOfFramed | src/app/api/pre-register/route.ts:109-133 | trimming a trimmed string framed by whitespace gives that string back, which fixes what `trim` returns |
| Text.TrimIdempotent | src/app/api/pre-register/route.ts:14-23 | trimming twice is trimming once |
| Text.BlankIffAllSpace | src/components/PreRegisterForm.tsx:42 | `!s.trim()` holds exactly when every character of `s` is whitespace |
| Text.TrimChars | src/components/PreRegisterForm.tsx:36 | `trim` adds no character |
| Text.JoinAppend | src/app/api/pre-register/route.ts:101-107 | joining two non-empty lists is joining each with one separator between |
| Text.JoinAt | src/app/api/pre-register/route.ts:101-107 | each part stands in the joined string between the parts before it and after it, with separators |
| Text.ConcatAt | src/app/api/pre-register/route.ts:126 | `join("")` puts each part between the parts before and after it |
| Text.Join | src/app/api/pre-register/route.ts:101-107 | `Array.prototype.join`: the parts with the separator between neighbours; `JoinAppend`, `JoinAt` and `ConcatAt` state it |
| Text.ToLower | src/app/api/pre-register/route.ts:73 | `toLowerCase` on ASCII letters, one character for one; `LowerIsTrue` states what the comparison with "true" needs of it |
| Fields.KeysDistinct | src/app/api/pre-register/route.ts:13-26 | the twelve keys are pairwise different |
| Route.ParseFacilityType | src/app/api/pre-register/route.ts:5-11 | a type is accepted exactly when it is one of the five names, and its parse spells that name |
| Route.FacilityTypeRoundTrip | src/app/api/pre-register/route.ts:5-11 | parsing a type's name gives the type back |
| Route.ParseSubmission | src/app/api/pre-register/route.ts:13-26 | `safeParse` of the schema: `Invalid` for a non-object body, otherwise the record exactly when every field check passes; `ParseFields`, `ParseAcceptance`, `ParseValue`, `ParseTrims` and `ParseEncode` state it |
| Route.NonEmptyTextValid | src/app/api/pre-register/route.ts:14 | `z.string().trim().min(1)` accepts exactly a string with a non-whitespace character |
| Route.NonEmptyTextValue | src/app/api/pre-register/route.ts:14 | what it accepts is the non-empty trim of the string sent |
| Route.ParseFields | src/app/api/pre-register/route.ts:13-26 | unfolds `ParseSubmission`: the record is accepted exactly when each of the twelve field checks passes |
| Route.ParseAcceptance | src/app/api/pre-register/route.ts:13-26 | acceptance requires six fields with text after trimming, a listed type, an e-mail Zod's `.email()` check (`isEmail`) accepts, strings for the optional texts and an integer start time when present; a body that is not an object is refused |
| Route.ParseValue | src/app/api/pre-register/route.ts:13-26 | unfolds `ParseSubmission`: the accepted record is made of the values the field checks produced |
| Route.ParseTrims | src/app/api/pre-register/route.ts:13-26 | the accepted record's required texts are non-empty, trimmed, and the trims of what was sent |
| Route.ParseEncode | src/app/api/pre-register/route.ts:13-26 | validating an accepted record again accepts it unchanged |
| Route.BotGate | src/app/api/pre-register/route.ts:59-61 | bot exactly when the honeypot has a non-whitespace character or a non-zero start time lies less than 1500 ms before now; a start time in the future passes |
| Route.IsLikelyBot | src/app/api/pre-register/route.ts:59-61 | a non-blank honeypot, or a non-zero start time less than 1500 ms before now; `BotGate` and `TimingBoundary` state it |
| Route.TimingBoundary | src/app/api/pre-register/route.ts:61 | 1499 ms is too fast, 1500 ms and 0 ms pass |
| Route.LowerIsTrue | src/app/api/pre-register/route.ts:73 | the lower-cased setting equals "true" exactly when it spells true in any case |
| Route.RequiredEnv | src/app/api/pre-register/route.ts:28-32 | a variable that is unset or empty is missing (the thrown error becomes `None`); `ResolveConfig` states what follows from it |
| Route.ResolveConfig | src/app/api/pre-register/route.ts:67-83 | settings exist exactly when EMAIL_FROM, SMTP_HOST, SMTP_USER and SMTP_PASS are set and non-empty; the recipient defaults to the built-in address; the port is `Number()` of SMTP_PORT, defaulting to "587"; secure iff SMTP_SECURE spells true or the port is 465 |
| Route.ReplaceAll | src/app/api/pre-register/route.ts:36-40 | the target is gone when the replacement lacks it, and nothing changes when the target is absent |
| Route.ReplaceAllConcat | src/app/api/pre-register/route.ts:36-40 | `replaceAll` of a concatenation is the concatenation of the results |
| Route.EscapeEach | src/app/api/pre-register/route.ts:34-41 | escaping character by character leaves no raw `<`, `>`, `"` or `'` |
| Route.EscapeHtmlConcat | src/app/api/pre-register/route.ts:34-41 | `escapeHtml` distributes over concatenation |
| Route.EscapeHtmlChar | src/app/api/pre-register/route.ts:34-41 | on one character `escapeHtml` gives its entity, or the character itself |
| Route.EscapeHtmlIsPerCharacter | src/app/api/pre-register/route.ts:34-41 | the five passes, ampersand first, equal the per-character escape, so no entity is escaped twice |
| Route.UnescapeEscapeEach | src/app/api/pre-register/route.ts:34-41 | decoding the five entities undoes the per-character escape |
| Route.EscapeHtmlSafe | src/app/api/pre-register/route.ts:34-41 | `escapeHtml` output holds no raw markup character and decodes back to its input |
| Route.EscapeHtml | src/app/api/pre-register/route.ts:34-41 | five `replaceAll` passes, ampersand first; `EscapeHtmlIsPerCharacter` and `EscapeHtmlSafe` state it |
| Route.OrNotProvided | src/app/api/pre-register/route.ts:97-98 | a present value with a non-whitespace character shows as its trim; an absent or blank one shows "(not provided)"; the cell is never empty |
| Route.Lines | src/app/api/pre-register/route.ts:87-99 | one row per label of the fixed label list, eleven in all |
| Route.LinesTable | src/app/api/pre-register/route.ts:87-99 | row i carries the i-th label; its value is the submission time, then facility name, type, address, city, contact, role, e-mail and phone as validated, then the two optional cells; the honeypot and start time are not shown |
| Route.LabelsDistinct | src/app/api/pre-register/route.ts:87-99 | no two rows carry the same label |
| Route.TextLines | src/app/api/pre-register/route.ts:104 | one `label: value` line per row, in order |
| Route.TextParts | src/app/api/pre-register/route.ts:101-107 | four lines besides the rows: 15 for the eleven-row table |
| Route.TextBody | src/app/api/pre-register/route.ts:101-107 | the parts joined with line feeds; `TextBodyLayout` and `TextBodyRow` state it |
| Route.TextBodyLayout | src/app/api/pre-register/route.ts:101-107 | the text body is the heading, a blank line, the row lines, a blank line and the footer |
| Route.TextBodyRow | src/app/api/pre-register/route.ts:104 | each row's line stands between its neighbours, separated by line feeds |
| Route.HtmlCell | src/app/api/pre-register/route.ts:119-122 | each cell is the per-character escape of its label or value, holds no raw markup, and decodes back to it |
| Route.RenderRows | src/app/api/pre-register/route.ts:114-125 | one rendered `<tr>` per row, in order |
| Route.HtmlRow | src/app/api/pre-register/route.ts:116-124 | one `<tr>` with the label cell and the value cell, each escaped; `HtmlCell` states what a cell holds |
| Route.HtmlRows | src/app/api/pre-register/route.ts:114-126 | the rendered rows joined with nothing between; `HtmlRowsAt` states it |
| Route.HtmlRowsAt | src/app/api/pre-register/route.ts:114-126 | each row's `<tr>` stands between those of the rows before and after it |
| Route.HtmlTemplateEnds | src/app/api/pre-register/route.ts:109-133 | the template opens with `<` and closes with `>` inside a whitespace-only lead and trail |
| Route.HtmlBody | src/app/api/pre-register/route.ts:109-133 | trimming the template removes exactly its blank lead and trail |
| Route.Compose | src/app/api/pre-register/route.ts:135-142 | the message has the configured addresses and transport, the heading as subject, both bodies of the table, and `contactName <email>` as reply-to |
| Route.ReplyTo | src/app/api/pre-register/route.ts:141 | `contactName <email>` from the validated, trimmed record; `PostDelivery` ties it to the fields sent |
| Route.Post | src/app/api/pre-register/route.ts:43-152 | 400 iff the schema refuses; a bot gets 200 and no mail; missing settings give 500 and no mail; a message is handed off iff valid, human and configured, and then 200 iff the transport takes it, else 500 |
| Route.PostRejects | src/app/api/pre-register/route.ts:45-52 | a JSON object gets 400 exactly when it breaks the acceptance rule; a non-object body gets 400 and no mail |
| Route.PostDelivery | src/app/api/pre-register/route.ts:135-142 | mail goes out only for an acceptable object and complete settings, with the trimmed contact and address as reply-to |
| Form.BlankPayload | src/components/PreRegisterForm.tsx:144-157 | a fresh form has every text field empty and the given start time |
| Form.WithText | src/components/PreRegisterForm.tsx:255 | an edit replaces one field and keeps every other field and the start time |
| Form.IndexOf | src/components/PreRegisterForm.tsx:36 | the first occurrence of a character, or the length when there is none |
| Form.IsEmailLike | src/components/PreRegisterForm.tsx:35-37 | the trimmed value tested against `^[^\s@]+@[^\s@]+\.[^\s@]+$`; `IsEmailLikePattern` states it |
| Form.EmailLikeMatches | src/components/PreRegisterForm.tsx:35-37 | an e-mail-like value's trim matches `^[^\s@]+@[^\s@]+\.[^\s@]+$` |
| Form.MatchesEmailLike | src/components/PreRegisterForm.tsx:35-37 | a value whose trim matches the pattern is e-mail-like |
| Form.IsEmailLikePattern | src/components/PreRegisterForm.tsx:35-37 | `isEmailLike` holds exactly when the trimmed value matches the pattern |
| Form.NoAtIsNotEmailLike | src/components/PreRegisterForm.tsx:35-37 | a value without an at-sign is never e-mail-like |
| Form.NoKeysIsEmpty | src/components/PreRegisterForm.tsx:171 | an error object with no key set is `{}` |
| Form.Validation | src/components/PreRegisterForm.tsx:39-54 | the error object `validate` returns; `ValidationEmpty`, `EmailMessages`, `ErrorKeys`, `SameTextSameError` and `ErrorLocality` state it, and `Validate` computes it |
| Form.Validate | src/components/PreRegisterForm.tsx:39-54 | the object built one property at a time is the field-by-field specification |
| Form.EmailLikeIsNotBlank | src/components/PreRegisterForm.tsx:49-50 | an e-mail-like value is not blank |
| Form.ValidationEmpty | src/components/PreRegisterForm.tsx:39-54 | no errors exactly when the six texts have non-whitespace, a type is chosen, and the e-mail is e-mail-like |
| Form.ErrorKeys | src/components/PreRegisterForm.tsx:39-54 | only the eight checked fields can carry a message: never the optional fields, honeypot, start time or banner |
| Form.EmailMessages | src/components/PreRegisterForm.tsx:49-50 | the e-mail carries a message iff not e-mail-like: "required" iff whitespace only, "not valid" iff text that is not e-mail-like |
| Form.SameTextSameError | src/components/PreRegisterForm.tsx:39-54 | a field's message depends only on that field's text |
| Form.ErrorLocality | src/components/PreRegisterForm.tsx:39-54 | editing one field leaves every other field's message unchanged |
| Form.ErrorsAfter | src/components/PreRegisterForm.tsx:181-194 | after a 2xx nothing is shown; after any other status only the banner is shown, with the server's error or the fallback; a throw leaves the errors |
| Form.PreRegisterForm.constructor | src/components/PreRegisterForm.tsx:144-161 | a blank payload started now, not busy, no notice, no errors |
| Form.PreRegisterForm.Edit | src/components/PreRegisterForm.tsx:254-255 | one field takes the new text; nothing else changes |
| Form.PreRegisterForm.BeginSubmit | src/components/PreRegisterForm.tsx:165-173 | the notice is cleared and the errors become the validation result; a request is made iff the form is valid, and then the form is busy; otherwise the busy flag is unchanged |
| Form.PreRegisterForm.FinishSubmit | src/components/PreRegisterForm.tsx:174-212 | success resets every field, restarts the timer and shows the notice; failure keeps the payload; a non-ok response shows the banner; a throw leaves the errors as they were; every exit leaves the button enabled |
| Form.PreRegisterForm.OnSubmit | src/components/PreRegisterForm.tsx:165-213 | local errors stop the submission with payload and busy flag untouched; otherwise the payload is sent, the outcome decides errors, notice and reset, and the button is enabled again |
| Form.PreRegisterForm.CanSubmit | src/components/PreRegisterForm.tsx:163 | the button is enabled exactly when no request is in flight; `BeginSubmit`, `FinishSubmit` and `OnSubmit` report it |
| Pipeline.Serialize | src/components/PreRegisterForm.tsx:178 | the body has every key: the texts as strings, the start time as an integer |
| Pipeline.ClientValidAccepted | src/components/PreRegisterForm.tsx:39-54 | a payload the form passes, with a listed type and an address Zod accepts, satisfies the schema |
| Pipeline.ValidationEmptyBut | src/components/PreRegisterForm.tsx:39-54 | with the six texts non-blank and a type chosen, only the e-mail check can fail |
| Pipeline.AcceptedLeavesOnlyEmail | src/components/PreRegisterForm.tsx:39-54 | when the endpoint would accept a payload, the form can object only to the e-mail address |
| Pipeline.SentPayloadBotGate | src/app/api/pre-register/route.ts:59-61 | for a payload from the form, the bot test is a non-blank honeypot or a non-zero start time under 1500 ms ago |
| Pipeline.ClientView | src/components/PreRegisterForm.tsx:181-188 | `res.ok` is a 2xx status, and a failure's body `error` is exactly the error the form receives |
| Pipeline.ResponseShown | src/components/PreRegisterForm.tsx:181-191 | 200 shows nothing; 400 shows "Please check the form fields and try again."; 500 shows the server-error message |
| Pipeline.PostAsShown | src/app/api/pre-register/route.ts:47-51 | whatever the endpoint answers, the form shows it: no message iff 200, otherwise that response's message as the banner |
| Pipeline.BotSeesSuccess | src/app/api/pre-register/route.ts:62-65 | a sender taken for a bot, by the honeypot or by the 1500 ms rule, sees success, and nothing is mailed |
| Pipeline.SubmissionDelivered | src/app/api/pre-register/route.ts:135-144 | a valid, configured submission that passes the bot gate (blank honeypot; start time 0, at least 1500 ms old, or not before the server's now) is handed off with the configured transport, and the form reports success iff the transport takes it |

## Left out

- The layout, styles, labels and `Input`/`Textarea` rendering are left out. They are markup with no behaviour to state.
- React's asynchronous state updates are not modelled. `onSubmit` runs as two steps around the request: `BeginSubmit`, then `FinishSubmit`. An edit made while a request is in flight is not modelled.
- The `form` action is not checked against `canSubmit`, because the source does not check it either: only the button's `disabled` does. `CanSubmit` is the predicate the methods report on.
- `Number()` on the port string is the parameter `toNumber`. Its NaN and floating-point behaviour are not modelled.
- Zod's `.email()` is the parameter `isEmail`, and `req.json()` is the parsed body `Option<JsonObject>`.
- A JSON number with a fraction is `JFraction` and is refused as a start time. Keys the schema does not name are ignored.
- The clock (`Date.now()`) and `toISOString()` are parameters. The ISO format is not modelled.
- nodemailer's `createTransport` and `sendMail` are left out. Handing off a message is the parameter `send`, where `false` stands for a throw from either of them. Logging with `console.error` is left out too.
- Text.ToLower: lower-cases ASCII letters only. That is exact for the comparison with "true", because no other character lower-cases to one of its letters.
- Route.HtmlBody: the template's indentation and inline styles are copied as constants. Only the trimming and the escaped cells are stated about them.
- Form.IsEmailLike: a Dafny `char` is a Unicode scalar value, so the model tests the pattern over code points, not over UTF-16 code units. A surrogate pair is one character, and a lone surrogate cannot occur. The test's outcome does not change: each run only has to be non-empty, and the dot stays an inner position. `\s` is the ECMAScript whitespace set.
- `scripts/test-resend.mjs` is a one-off manual call to another mail API. It is not part of this model.
- `SurveyMonkeyEmbed.tsx`, `page.tsx` and `layout.tsx` are not part of this model either.
