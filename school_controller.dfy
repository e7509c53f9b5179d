/**
 * The School controller of controllers/school_controller.go: the field
 * validator `validateCommonFields` and the five request handlers around it.
 *
 * The email parser (Go's net/mail.ParseAddress) is a parameter,
 * `parsesAsAddress`, true when the parser returns no error. The persistence
 * service is a parameter too: each handler is given the answer the store
 * would make to each call, and reports which calls it made.
 */
module SchoolController {
  import opened Wrappers
  import opened Models

  // ---------------------------------------------------------------------
  // Validation messages and the order of the checks
  // ---------------------------------------------------------------------

  /** The six errors `validateCommonFields` can return. */
  datatype Msg =
    | NameRequired
    | AddressRequired
    | ContactRequired
    | ContactFormat
    | ContactLength
    | InvalidEmail
  {
    /**
     * The message text of the error. None of the six is the decode error's
     * or the store failure's text, so a client can tell the cases apart.
     */
    function Text(): (t: string)
      ensures t != InvalidRequestData && t != GenericFailure
      ensures |t| > 0
    {
      match this
      case NameRequired => "School name is required"
      case AddressRequired => "School address is required"
      case ContactRequired => "School contact number is required"
      case ContactFormat => "Invalid contact number format"
      case ContactLength => "Contact number should be between 12 to 15 characters"
      case InvalidEmail => "Invalid email address"
    }
  }

  /** The checks in the order the validator runs them. */
  const CheckOrder: seq<Msg> :=
    [NameRequired, AddressRequired, ContactRequired, ContactFormat, ContactLength, InvalidEmail]

  /** The position of a check in the validator. */
  function Rank(m: Msg): (k: nat)
    ensures k < |CheckOrder| && CheckOrder[k] == m
  {
    match m
    case NameRequired => 0
    case AddressRequired => 1
    case ContactRequired => 2
    case ContactFormat => 3
    case ContactLength => 4
    case InvalidEmail => 5
  }

  // ---------------------------------------------------------------------
  // The contact number pattern ^\+?[0-9]{10,15}$
  // ---------------------------------------------------------------------

  predicate IsDigit(ch: char)
  {
    '0' <= ch <= '9'
  }

  /** Every character of `s` is an ASCII digit. */
  ghost predicate AllDigits(s: string)
  {
    forall i :: 0 <= i < |s| ==> IsDigit(s[i])
  }

  /**
   * The bounded repetition `[0-9]{lo,hi}`, anchored at both ends: matched one
   * character at a time, consuming one unit of each bound per digit.
   */
  function DigitsBetween(s: string, lo: nat, hi: nat): (b: bool)
    ensures b <==> lo <= |s| <= hi && AllDigits(s)
    decreases |s|
  {
    if s == [] then lo == 0
    else
      IsDigit(s[0]) && hi > 0
      && DigitsBetween(s[1..], if lo == 0 then 0 else lo - 1, hi - 1)
  }

  /**
   * `^\+?[0-9]{10,15}$`: an optional leading '+', then 10 to 15 digits. As
   * '+' is not a digit, the optional part takes the '+' exactly when there is
   * one. Go's `$` (without the multi-line flag) matches only at the end of
   * the text, so no trailing newline is admitted.
   */
  function MatchesContactPattern(c: string): (b: bool)
    ensures b <==>
      (AllDigits(c) && 10 <= |c| <= 15)
      || (|c| > 0 && c[0] == '+' && AllDigits(c[1..]) && 11 <= |c| <= 16)
  {
    var digits := if |c| > 0 && c[0] == '+' then c[1..] else c;
    DigitsBetween(digits, 10, 15)
  }

  /**
   * The separate length check. Go's `len` counts bytes; it only runs on a
   * contact the pattern accepted, which is all ASCII, so bytes are characters.
   */
  predicate ContactLengthInRange(c: string): (b: bool)
    ensures MatchesContactPattern(c) ==> (!b <==> |c| == 10 || |c| == 11 || |c| == 16)
  {
    12 <= |c| <= 15
  }

  // ---------------------------------------------------------------------
  // validateCommonFields
  // ---------------------------------------------------------------------

  /**
   * Whether check `m` fails on `s`, judged on its own, apart from the order.
   * An empty contact also fails the format check, so the empty-contact check
   * only decides which message such a record gets, never whether it passes.
   */
  predicate FailsCheck(m: Msg, s: School, parsesAsAddress: string -> bool): (b: bool)
    ensures m == ContactRequired && b ==> !MatchesContactPattern(s.contact)
    ensures m == ContactLength && b && MatchesContactPattern(s.contact) ==>
      |s.contact| == 10 || |s.contact| == 11 || |s.contact| == 16
  {
    match m
    case NameRequired => s.name == ""
    case AddressRequired => s.address == ""
    case ContactRequired => s.contact == ""
    case ContactFormat => !MatchesContactPattern(s.contact)
    case ContactLength => !ContactLengthInRange(s.contact)
    case InvalidEmail => !parsesAsAddress(s.email)
  }

  /**
   * The validator: the checks in turn, returning the error of the first that
   * fails. It succeeds exactly when no check fails, and an error it returns is
   * that of a failing check every earlier check of which passes.
   */
  function Validate(s: School, parsesAsAddress: string -> bool): (r: Result<(), Msg>)
    ensures r.Err? ==>
      FailsCheck(r.error, s, parsesAsAddress)
      && forall m: Msg :: Rank(m) < Rank(r.error) ==> !FailsCheck(m, s, parsesAsAddress)
    ensures r.Ok? <==> forall m: Msg :: !FailsCheck(m, s, parsesAsAddress)
  {
    if s.name == "" then Err(NameRequired)
    else if s.address == "" then Err(AddressRequired)
    else if s.contact == "" then Err(ContactRequired)
    else if !MatchesContactPattern(s.contact) then Err(ContactFormat)
    else if !ContactLengthInRange(s.contact) then Err(ContactLength)
    else if !parsesAsAddress(s.email) then Err(InvalidEmail)
    else Ok(())
  }

  // ---------------------------------------------------------------------
  // Request handlers
  // ---------------------------------------------------------------------

  /** The outcome of the request body decoder, `c.BodyParser`. */
  datatype Decoded = Decoded(school: School) | DecodeFailed

  /** An error of the persistence service; its text is what must not leak. */
  datatype StoreError = StoreError(cause: string)

  /** A call a handler makes to the persistence service. */
  datatype StoreCall =
    | FetchAll
    | FetchOne(id: string)
    | Insert(school: School)
    | Replace(id: string, school: School)
    | Remove(id: string)

  /** The status class of a response: 200, 400 or 500. */
  datatype Kind = Success | BadRequest | InternalServerError

  /** The body written: a `{message, data: nil}` envelope, or the records themselves. */
  datatype Body = Message(text: string) | Schools(list: seq<School>) | OneSchool(school: School)

  datatype Response = Response(kind: Kind, body: Body)

  /** What handling one request amounts to: the response and the store calls made. */
  datatype Handled = Handled(response: Response, calls: seq<StoreCall>)

  const InvalidRequestData := "Invalid request data"
  const GenericFailure := "Something went wrong, please try again later"
  const SchoolCreated := "School created successfully"
  const SchoolUpdated := "School updated successfully"
  const SchoolDeleted := "School deleted successfully"

  /** Every internal-server-error response carries the generic message only. */
  predicate Sanitized(h: Handled)
  {
    h.response.kind == InternalServerError ==> h.response.body == Message(GenericFailure)
  }

  /** GetAllSchools: one fetch; the records on success, the generic error otherwise. */
  function GetAllSchools(fetchAll: Result<seq<School>, StoreError>): (h: Handled)
    ensures h.calls == [FetchAll]
    ensures Sanitized(h)
    ensures h.response.kind == Success <==> fetchAll.Ok?
    ensures fetchAll.Ok? ==> h.response.body == Schools(fetchAll.value)
    ensures h.response.kind != BadRequest
  {
    match fetchAll
    case Err(_) => Handled(Response(InternalServerError, Message(GenericFailure)), [FetchAll])
    case Ok(schools) => Handled(Response(Success, Schools(schools)), [FetchAll])
  }

  /**
   * GetSpecSchool: one fetch by the path id, which is not checked here; a
   * missing record is a store error like any other.
   */
  function GetSpecSchool(id: string, fetchOne: string -> Result<School, StoreError>): (h: Handled)
    ensures h.calls == [FetchOne(id)]
    ensures Sanitized(h)
    ensures h.response.kind == Success <==> fetchOne(id).Ok?
    ensures fetchOne(id).Ok? ==> h.response.body == OneSchool(fetchOne(id).value)
    ensures h.response.kind != BadRequest
  {
    match fetchOne(id)
    case Err(_) => Handled(Response(InternalServerError, Message(GenericFailure)), [FetchOne(id)])
    case Ok(school) => Handled(Response(Success, OneSchool(school)), [FetchOne(id)])
  }

  /**
   * AddSchool: decode, validate, insert. A body that does not decode or does
   * not validate is a bad request and reaches no store call; otherwise the
   * decoded record is inserted as it is, once.
   */
  function AddSchool(
    body: Decoded, parsesAsAddress: string -> bool, insert: School -> Result<(), StoreError>
  ): (h: Handled)
    ensures Sanitized(h)
    ensures body.DecodeFailed? ==> h.response == Response(BadRequest, Message(InvalidRequestData))
    ensures body.Decoded? && Validate(body.school, parsesAsAddress).Err? ==>
      h.response == Response(BadRequest, Message(Validate(body.school, parsesAsAddress).error.Text()))
    ensures h.calls != [] <==> body.Decoded? && Validate(body.school, parsesAsAddress).Ok?
    ensures h.calls != [] ==> h.calls == [Insert(body.school)]
    ensures h.response.kind == InternalServerError <==> h.calls != [] && insert(body.school).Err?
    ensures h.response.kind == Success <==> h.calls != [] && insert(body.school).Ok?
    ensures h.response.kind == Success ==> h.response.body == Message(SchoolCreated)
  {
    match body
    case DecodeFailed => Handled(Response(BadRequest, Message(InvalidRequestData)), [])
    case Decoded(school) =>
      match Validate(school, parsesAsAddress)
      case Err(m) => Handled(Response(BadRequest, Message(m.Text())), [])
      case Ok(_) =>
        match insert(school)
        case Err(_) => Handled(Response(InternalServerError, Message(GenericFailure)), [Insert(school)])
        case Ok(_) => Handled(Response(Success, Message(SchoolCreated)), [Insert(school)])
  }

  /**
   * UpdateSchool: decode, validate, replace the record with the path id by the
   * decoded one. Same outcomes as AddSchool.
   */
  function UpdateSchool(
    id: string, body: Decoded, parsesAsAddress: string -> bool,
    replace: (string, School) -> Result<(), StoreError>
  ): (h: Handled)
    ensures Sanitized(h)
    ensures body.DecodeFailed? ==> h.response == Response(BadRequest, Message(InvalidRequestData))
    ensures body.Decoded? && Validate(body.school, parsesAsAddress).Err? ==>
      h.response == Response(BadRequest, Message(Validate(body.school, parsesAsAddress).error.Text()))
    ensures h.calls != [] <==> body.Decoded? && Validate(body.school, parsesAsAddress).Ok?
    ensures h.calls != [] ==> h.calls == [Replace(id, body.school)]
    ensures h.response.kind == InternalServerError <==> h.calls != [] && replace(id, body.school).Err?
    ensures h.response.kind == Success <==> h.calls != [] && replace(id, body.school).Ok?
    ensures h.response.kind == Success ==> h.response.body == Message(SchoolUpdated)
  {
    match body
    case DecodeFailed => Handled(Response(BadRequest, Message(InvalidRequestData)), [])
    case Decoded(school) =>
      match Validate(school, parsesAsAddress)
      case Err(m) => Handled(Response(BadRequest, Message(m.Text())), [])
      case Ok(_) =>
        match replace(id, school)
        case Err(_) => Handled(Response(InternalServerError, Message(GenericFailure)), [Replace(id, school)])
        case Ok(_) => Handled(Response(Success, Message(SchoolUpdated)), [Replace(id, school)])
  }

  /** DeleteSchool: one delete by the path id, with no validation. */
  function DeleteSchool(id: string, remove: string -> Result<(), StoreError>): (h: Handled)
    ensures h.calls == [Remove(id)]
    ensures Sanitized(h)
    ensures h.response.kind == Success <==> remove(id).Ok?
    ensures h.response.kind == Success ==> h.response.body == Message(SchoolDeleted)
    ensures h.response.kind != BadRequest
  {
    match remove(id)
    case Err(_) => Handled(Response(InternalServerError, Message(GenericFailure)), [Remove(id)])
    case Ok(_) => Handled(Response(Success, Message(SchoolDeleted)), [Remove(id)])
  }
}
