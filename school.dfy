/** The School record of models/school.go. */
module Models {

  /** A MongoDB ObjectID: twelve bytes, treated as an opaque value. */
  type ObjectID = b: seq<bv8> | |b| == 12 witness seq(12, _ => 0 as bv8)

  /** One school, with the six fields of the Go struct. Strings are sequences of characters. */
  datatype School = School(
    id: ObjectID,
    name: string,
    address: string,
    contact: string,
    email: string,
    description: string)

  /** The `max=255` bound declared on Description. */
  const MaxDescriptionLength: nat := 255

  /**
   * The constraints the struct tags declare: `required` on Name, Address,
   * Contact and Email, and `max=255` on Description. Nothing in the controller
   * evaluates the tags themselves; what validation enforces of them is proved
   * in SchoolController.
   */
  predicate MeetsDeclaredTags(s: School): (b: bool)
    ensures b <==>
      s.name != "" && s.address != "" && s.contact != "" && s.email != ""
      && |s.description| <= MaxDescriptionLength
  {
    var required := RequiredFields(s);
    assert required[0] == s.name && required[1] == s.address
        && required[2] == s.contact && required[3] == s.email;
    (forall i | 0 <= i < |required| :: required[i] != "")
    && |s.description| <= MaxDescriptionLength
  }

  /** The fields tagged `required`, in declaration order. */
  function RequiredFields(s: School): seq<string>
  {
    [s.name, s.address, s.contact, s.email]
  }
}
