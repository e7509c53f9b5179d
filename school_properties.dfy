/**
 * Properties of the School controller: how the two contact checks interact,
 * which declared field constraints validation enforces, and what each
 * handler returns for each outcome of decoding, validation and the store.
 */
module SchoolProperties {
  import opened Wrappers
  import opened Models
  import opened SchoolController

  // ---------------------------------------------------------------------
  // The two contact checks together
  // ---------------------------------------------------------------------

  /**
   * A contact passes both the pattern and the length check exactly when it is
   * 12 to 15 digits, or a '+' followed by 11 to 14 digits.
   */
  lemma ContactChecksCharacterized(c: string)
    ensures MatchesContactPattern(c) && ContactLengthInRange(c) <==>
      (AllDigits(c) && 12 <= |c| <= 15)
      || (|c| > 0 && c[0] == '+' && AllDigits(c[1..]) && 11 <= |c[1..]| <= 14)
  {
  }

  /**
   * A contact the pattern accepts is 10 to 16 characters long, and the length
   * check then rejects it exactly when it has 10, 11 or 16 characters.
   */
  lemma LengthCheckRejectsExactly(c: string)
    requires MatchesContactPattern(c)
    ensures 10 <= |c| <= 16
    ensures !ContactLengthInRange(c) <==> |c| == 10 || |c| == 11 || |c| == 16
  {
  }

  /** A school that passes every check before the contact checks. */
  predicate NameAndAddressGiven(s: School)
  {
    s.name != "" && s.address != ""
  }

  /** A contact the pattern accepts but of the wrong length fails with the length message. */
  lemma LengthFailureWith(s: School, c: string, parsesAsAddress: string -> bool)
    requires NameAndAddressGiven(s) && MatchesContactPattern(c) && !ContactLengthInRange(c)
    ensures Validate(s.(contact := c), parsesAsAddress) == Err(ContactLength)
  {
  }

  /** A non-empty contact the pattern rejects fails with the format message. */
  lemma FormatFailureWith(s: School, c: string, parsesAsAddress: string -> bool)
    requires NameAndAddressGiven(s) && c != "" && !MatchesContactPattern(c)
    ensures Validate(s.(contact := c), parsesAsAddress) == Err(ContactFormat)
  {
  }

  /** Ten digits: accepted by the pattern, too short for the length check. */
  lemma TenDigitsTooShort(s: School, parsesAsAddress: string -> bool)
    requires NameAndAddressGiven(s)
    ensures Validate(s.(contact := "1234567890"), parsesAsAddress) == Err(ContactLength)
  {
    LengthFailureWith(s, "1234567890", parsesAsAddress);
  }

  /** Eleven digits: accepted by the pattern, too short for the length check. */
  lemma ElevenDigitsTooShort(s: School, parsesAsAddress: string -> bool)
    requires NameAndAddressGiven(s)
    ensures Validate(s.(contact := "12345678901"), parsesAsAddress) == Err(ContactLength)
  {
    LengthFailureWith(s, "12345678901", parsesAsAddress);
  }

  /** '+' with ten digits: accepted by the pattern, too short for the length check. */
  lemma PlusTenDigitsTooShort(s: School, parsesAsAddress: string -> bool)
    requires NameAndAddressGiven(s)
    ensures Validate(s.(contact := "+1234567890"), parsesAsAddress) == Err(ContactLength)
  {
    LengthFailureWith(s, "+1234567890", parsesAsAddress);
  }

  /** '+' with fifteen digits: accepted by the pattern, too long for the length check. */
  lemma PlusFifteenDigitsTooLong(s: School, parsesAsAddress: string -> bool)
    requires NameAndAddressGiven(s)
    ensures Validate(s.(contact := "+123456789012345"), parsesAsAddress) == Err(ContactLength)
  {
    var c := "+123456789012345";
    assert c[1..] == "123456789012345";
    assert DigitsBetween(c[1..], 10, 15);
    LengthFailureWith(s, c, parsesAsAddress);
  }

  /**
   * '+' with nine digits is not a length failure: with only nine digits the
   * pattern already rejects it.
   */
  lemma PlusNineDigitsMalformed(s: School, parsesAsAddress: string -> bool)
    requires NameAndAddressGiven(s)
    ensures Validate(s.(contact := "+123456789"), parsesAsAddress) == Err(ContactFormat)
  {
    FormatFailureWith(s, "+123456789", parsesAsAddress);
  }

  /** Sixteen digits, and a doubled '+', are rejected by the pattern. */
  lemma OverlongAndDoublePlusMalformed(s: School, parsesAsAddress: string -> bool)
    requires NameAndAddressGiven(s)
    ensures Validate(s.(contact := "1234567890123456"), parsesAsAddress) == Err(ContactFormat)
    ensures Validate(s.(contact := "++12345678901"), parsesAsAddress) == Err(ContactFormat)
  {
    FormatFailureWith(s, "1234567890123456", parsesAsAddress);
    FormatFailureWith(s, "++12345678901", parsesAsAddress);
  }

  /** '+' with eleven digits passes both contact checks. */
  lemma PlusElevenDigitsAccepted()
    ensures MatchesContactPattern("+12345678901") && ContactLengthInRange("+12345678901")
  {
  }

  // ---------------------------------------------------------------------
  // The checks' messages, and the declared field constraints
  // ---------------------------------------------------------------------

  /** The six checks report six different messages. */
  lemma MessagesDistinct(m1: Msg, m2: Msg)
    ensures m1.Text() == m2.Text() <==> m1 == m2
  {
  }

  /**
   * Each required field, left empty, is rejected with its own message,
   * whatever the other fields hold, provided the earlier fields are given.
   */
  lemma EmptyRequiredFieldsRejected(s: School, parsesAsAddress: string -> bool)
    requires !parsesAsAddress("")
    ensures Validate(s.(name := ""), parsesAsAddress) == Err(NameRequired)
    ensures s.name != "" ==> Validate(s.(address := ""), parsesAsAddress) == Err(AddressRequired)
    ensures NameAndAddressGiven(s) ==> Validate(s.(contact := ""), parsesAsAddress) == Err(ContactRequired)
    ensures Validate(s, parsesAsAddress).Ok? ==>
      Validate(s.(email := ""), parsesAsAddress) == Err(InvalidEmail)
  {
  }

  /**
   * A record that validates meets the four `required` tags, the email one
   * because the address parser rejects the empty string.
   */
  lemma ValidatedMeetsRequiredTags(s: School, parsesAsAddress: string -> bool)
    requires !parsesAsAddress("")
    requires Validate(s, parsesAsAddress).Ok?
    ensures s.name != "" && s.address != "" && s.contact != "" && s.email != ""
    ensures MeetsDeclaredTags(s) <==> |s.description| <= MaxDescriptionLength
  {
  }

  /** Neither the ID nor the description takes part in validation. */
  lemma ValidateIgnoresIdAndDescription(
    s: School, id: ObjectID, description: string, parsesAsAddress: string -> bool)
    ensures Validate(s.(id := id, description := description), parsesAsAddress)
         == Validate(s, parsesAsAddress)
  {
  }

  /** The `max=255` tag is not enforced: a 256-character description validates. */
  lemma DescriptionMaxNotEnforced(id: ObjectID, email: string, parsesAsAddress: string -> bool)
    requires parsesAsAddress(email)
    ensures var s := School(id, "A", "B", "+12345678901", email, seq(256, _ => 'x'));
      Validate(s, parsesAsAddress) == Ok(()) && !MeetsDeclaredTags(s)
  {
  }

  // ---------------------------------------------------------------------
  // The handlers
  // ---------------------------------------------------------------------

  /** Two store answers that agree on success and failure, whatever their error text. */
  ghost predicate SameVerdicts<A(!new)>(f: A -> Result<(), StoreError>, g: A -> Result<(), StoreError>)
  {
    forall a :: f(a).Ok? <==> g(a).Ok?
  }

  /** The same, for the two-argument replace call. */
  ghost predicate SameReplaceVerdicts(
    f: (string, School) -> Result<(), StoreError>, g: (string, School) -> Result<(), StoreError>)
  {
    forall id, s :: f(id, s).Ok? <==> g(id, s).Ok?
  }

  /** Two fetch answers that return the same records, whatever their error text. */
  ghost predicate SameFetches(
    f: string -> Result<School, StoreError>, g: string -> Result<School, StoreError>)
  {
    forall id :: f(id).Ok? == g(id).Ok? && (f(id).Ok? ==> f(id).value == g(id).value)
  }

  /**
   * The text of a store error never reaches the caller: the responses, and
   * the calls, depend only on whether each store call failed.
   */
  lemma StoreErrorTextNeverShown(
    id: string, body: Decoded, parsesAsAddress: string -> bool,
    insert: School -> Result<(), StoreError>, insert': School -> Result<(), StoreError>,
    replace: (string, School) -> Result<(), StoreError>,
    replace': (string, School) -> Result<(), StoreError>,
    remove: string -> Result<(), StoreError>, remove': string -> Result<(), StoreError>,
    fetchOne: string -> Result<School, StoreError>, fetchOne': string -> Result<School, StoreError>,
    e: StoreError, e': StoreError)
    requires SameVerdicts(insert, insert') && SameVerdicts(remove, remove')
    requires SameReplaceVerdicts(replace, replace') && SameFetches(fetchOne, fetchOne')
    ensures AddSchool(body, parsesAsAddress, insert) == AddSchool(body, parsesAsAddress, insert')
    ensures UpdateSchool(id, body, parsesAsAddress, replace)
         == UpdateSchool(id, body, parsesAsAddress, replace')
    ensures DeleteSchool(id, remove) == DeleteSchool(id, remove')
    ensures GetAllSchools(Err(e)) == GetAllSchools(Err(e'))
    ensures GetSpecSchool(id, fetchOne) == GetSpecSchool(id, fetchOne')
  {
  }

  /**
   * Creating a valid school: the store is asked to insert exactly the decoded
   * record, once, and the response is the confirmation with no data.
   */
  lemma CreateValidSchool(id: ObjectID, parsesAsAddress: string -> bool,
    insert: School -> Result<(), StoreError>)
    requires parsesAsAddress("a@b.com")
    ensures var s := School(id, "A", "B", "+12345678901", "a@b.com", "");
      var h := AddSchool(Decoded(s), parsesAsAddress, insert);
      h.calls == [Insert(s)]
      && h.response == (if insert(s).Ok? then Response(Success, Message(SchoolCreated))
                        else Response(InternalServerError, Message(GenericFailure)))
  {
  }

  /** A body that does not validate gets the validation message, and the store is not called. */
  lemma InvalidBodyNeverStored(
    id: string, s: School, parsesAsAddress: string -> bool,
    insert: School -> Result<(), StoreError>,
    replace: (string, School) -> Result<(), StoreError>)
    requires Validate(s, parsesAsAddress).Err?
    ensures var h := AddSchool(Decoded(s), parsesAsAddress, insert);
      h.calls == [] && h.response.kind == BadRequest
      && h.response.body == Message(Validate(s, parsesAsAddress).error.Text())
    ensures var h := UpdateSchool(id, Decoded(s), parsesAsAddress, replace);
      h.calls == [] && h.response.kind == BadRequest
      && h.response.body == Message(Validate(s, parsesAsAddress).error.Text())
  {
  }
}
