# School controller — a Dafny model

This project models the School resource of a shuttle-service backend written
in Go: the `School` record, the field validator `validateCommonFields`, and
the five HTTP handlers that list, fetch, create, update and delete schools.

- `wrappers.dfy` — module `Wrappers`: the `Result` type that stands for Go's
  `(value, error)` returns.
- `school.dfy` — module `Models`: the `School` record with its six fields
  (an opaque 12-byte ObjectID and five strings) and the constraints its
  struct tags declare (`MeetsDeclaredTags`).
- `school_controller.dfy` — module `SchoolController`: the six validation
  messages in check order, the contact pattern `^\+?[0-9]{10,15}$` written as
  a character predicate, the separate 12..15 length check, the validator
  `Validate`, and the handlers as pure functions.
- `school_properties.dfy` — module `SchoolProperties`: lemmas about how the
  two contact checks interact, which declared constraints validation
  enforces, and what the handlers return.

Modelling choices:

- The email parser (`net/mail.ParseAddress`, which follows the address
  grammar of section 3.4 of RFC 5322) is a parameter `parsesAsAddress:
  string -> bool`. Lemmas about an empty Email assume `!parsesAsAddress("")`.
- The persistence service is a parameter: each handler takes the answer the
  store would give to each call, and returns a `Handled` value holding the
  response and the list of store calls it made. "The store is never called"
  is `calls == []`; "inserted exactly once with these fields" is
  `calls == [Insert(s)]`.
- Request decoding (`c.BodyParser`) is an input `Decoded(school)` or
  `DecodeFailed`. The path id (`c.Params("id")`) is a string parameter.
- A response is a status class (`Success` = 200, `BadRequest` = 400,
  `InternalServerError` = 500) and a body. The body is a message envelope
  with nil data, or, for the two read handlers, the records themselves
  (`GetAllSchools` and `GetSpecSchool` write the records directly as JSON).
- Strings are sequences of characters. Go's `len` counts bytes, but the
  length check only runs after the pattern accepted the contact, which is
  then pure ASCII, so `|c|` equals the byte length.
- Go's `regexp` `$` without the multi-line flag matches only at the end of
  the text, so the pattern admits no trailing newline. Since `+` is not a
  digit, `\+?` takes a leading `+` exactly when there is one.
- The contact rule as a whole: the pattern admits 10..15 digits with an
  optional `+` (10..16 characters), the length check then removes lengths
  10, 11 and 16. Both checks are kept as written. `"+123456789"` has nine digits,
  so the pattern rejects it first with "Invalid contact number format"
  (`PlusNineDigitsMalformed`); it never reaches the length check.
- `FailsCheck` states each of the six checks on its own; `Validate`'s
  contract relates the chain of `if … return` to them: the result is the
  first failing check in `CheckOrder`, or success when none fails.

## Model

| member | source | states |
|---|---|---|
| SchoolController.Rank | controllers/school_controller.go:86-117 | the position of each check in the validator; `CheckOrder` lists the six checks name, address, contact-empty, contact-format, contact-length, email, each at its rank |
| SchoolController.DigitsBetween | controllers/school_controller.go:102 | the anchored repetition `[0-9]{lo,hi}` holds exactly when the string has lo..hi characters, all ASCII digits |
| SchoolController.MatchesContactPattern | controllers/school_controller.go:102-106 | `^\+?[0-9]{10,15}$` accepts exactly 10..15 digits, or a `+` followed by 10..15 digits |
| SchoolController.Msg.Text | controllers/school_controller.go:88-116 | the six validation message texts; none of them is the decode error's "Invalid request data" or the generic store failure text |
| SchoolController.ContactLengthInRange | controllers/school_controller.go:108-111 | the 12..15 length check; on a contact the pattern accepts it fails exactly for lengths 10, 11 and 16 |
| SchoolController.FailsCheck | controllers/school_controller.go:87-117 | the six check conditions, each on its own; an empty contact also fails the format check, so the empty-contact check only chooses the message; a length failure of a well-formed contact has length 10, 11 or 16 |
| Models.MeetsDeclaredTags | models/school.go:9-13 | the struct tags: the four `required` fields Name, Address, Contact, Email are non-empty and Description has at most 255 characters |
| SchoolController.Validate | controllers/school_controller.go:86-120 | success exactly when none of the six checks fails; an error is the message of a failing check all of whose predecessors in the check order pass |
| SchoolController.GetAllSchools | controllers/school_controller.go:16-24 | one fetch-all call; success with the records exactly when the store succeeds, else internal error with the generic message; never a bad request |
| SchoolController.GetSpecSchool | controllers/school_controller.go:26-36 | one fetch by the unchecked path id; success with the record exactly when the store succeeds, any store error (not-found included) gives internal error with the generic message |
| SchoolController.AddSchool | controllers/school_controller.go:38-54 | decode failure gives bad request "Invalid request data"; a validation error gives bad request with its message; the store is called exactly when the body decodes and validates, and then only with Insert of the decoded record; internal error exactly when that insert fails, with the generic text; success exactly when the insert succeeds, carrying "School created successfully" |
| SchoolController.UpdateSchool | controllers/school_controller.go:56-73 | as AddSchool, with Replace(id, record) as the only possible call; success exactly when the replace succeeds, carrying "School updated successfully" |
| SchoolController.DeleteSchool | controllers/school_controller.go:75-84 | one delete by path id, no validation; success with "School deleted successfully" exactly when the store succeeds, else the generic internal error |
| SchoolProperties.ContactChecksCharacterized | controllers/school_controller.go:102-111 | a contact passes both contact checks exactly when it is 12..15 digits, or `+` followed by 11..14 digits |
| SchoolProperties.LengthCheckRejectsExactly | controllers/school_controller.go:102-111 | a contact the pattern accepts has 10..16 characters, and the length check rejects it exactly when it has 10, 11 or 16 |
| SchoolProperties.LengthFailureWith | controllers/school_controller.go:102-111 | with name and address given, a contact the pattern accepts but of the wrong length yields the length message |
| SchoolProperties.FormatFailureWith | controllers/school_controller.go:97-106 | with name and address given, a non-empty contact the pattern rejects yields the format message |
| SchoolProperties.TenDigitsTooShort | controllers/school_controller.go:102-111 | ten digits pass the pattern and fail the length check |
| SchoolProperties.ElevenDigitsTooShort | controllers/school_controller.go:102-111 | `"12345678901"` passes the pattern and fails the length check |
| SchoolProperties.PlusTenDigitsTooShort | controllers/school_controller.go:102-111 | `"+1234567890"` passes the pattern and fails the length check |
| SchoolProperties.PlusFifteenDigitsTooLong | controllers/school_controller.go:102-111 | `+` with fifteen digits passes the pattern and fails the length check |
| SchoolProperties.PlusNineDigitsMalformed | controllers/school_controller.go:102-106 | `"+123456789"` fails the format check, not the length check |
| SchoolProperties.OverlongAndDoublePlusMalformed | controllers/school_controller.go:102-106 | sixteen digits, and a doubled leading `+`, fail the format check |
| SchoolProperties.PlusElevenDigitsAccepted | controllers/school_controller.go:102-111 | `"+12345678901"` passes both contact checks |
| SchoolProperties.MessagesDistinct | controllers/school_controller.go:87-117 | the six checks report six different message texts |
| SchoolProperties.EmptyRequiredFieldsRejected | models/school.go:9-12 | an empty Name, Address or Contact is rejected with its own message once the earlier fields are given; emptying the Email of a valid record gives "Invalid email address" when the parser rejects the empty string |
| SchoolProperties.ValidatedMeetsRequiredTags | models/school.go:9-13 | a record that validates meets all four `required` tags; the declared tags then hold exactly when the description is at most 255 characters |
| SchoolProperties.ValidateIgnoresIdAndDescription | models/school.go:8-13 | changing ID or Description never changes the validation result |
| SchoolProperties.DescriptionMaxNotEnforced | models/school.go:13 | a record with a 256-character description validates although it breaks the declared `max=255` |
| SchoolProperties.StoreErrorTextNeverShown | controllers/school_controller.go:16-84 | responses and calls of every handler depend only on whether the store call failed, never on the error's text |
| SchoolProperties.CreateValidSchool | controllers/school_controller.go:38-54 | creating `{A, B, +12345678901, a@b.com, ""}` inserts exactly that record once and answers "School created successfully", or the generic error if the insert fails |
| SchoolProperties.InvalidBodyNeverStored | controllers/school_controller.go:44-46 | on add and update, a record that fails validation makes no store call and gets bad request with the validation message |

## Left out

- Fiber's request context and routing (`c.Params`, `c.BodyParser`, `c.Status(...).JSON`): reduced to an id parameter, a decode outcome and a response value; JSON decoding itself is not modelled.
- The `services` calls (MongoDB persistence, not part of this model): each is an abstract answer, success or `StoreError`, with no store state.
- `logger.LogError` calls: fire-and-forget side effects that do not affect any result.
- The `utils` response helpers: the envelope is reduced to a status class and a message; the helpers' source is not part of this model.
- `net/mail.ParseAddress`: a foreign parser, kept as the parameter `parsesAsAddress`; its grammar is not re-implemented.
- `regexp.MustCompile`: replaced by the equivalent character predicate; no regex engine is modelled.
- `primitive.ObjectID` internals: the ID is twelve opaque bytes.
- The custom `errors` package: only the message matters; the model takes `err.Error()` of `errors.New(msg, 0)` to be `msg`, and the numeric code is dropped. That package is not part of this model.
- The struct tags: no validator library evaluates them in these files; the model only proves which of them `validateCommonFields` happens to enforce.
