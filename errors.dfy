/** The errors the fragment model raises, with the messages the source gives
    them. Callers tell a missing fragment apart by its message. */
module FragmentErrors {
  import opened Wrappers

  datatype Error =
    | MissingOwner                          // constructor: no ownerId
    | UnsupportedType(contentType: Option<string>) // constructor: absent or unsupported type
    | InvalidMediaType(value: string)       // content-type parser: not type/subtype
    | InvalidSize                           // constructor: size not a non-negative integer
    | NotFound(id: string)                  // byId: no metadata for the key
    | MalformedEntry(id: string)            // byUser(expand): an entry that is no record

  function Message(e: Error): string {
    match e
    case MissingOwner => "ownerId is required"
    case UnsupportedType(t) =>
      "invalid or unsupported type: " + (match t case None => "undefined" case Some(s) => s)
    case InvalidMediaType(_) => "invalid media type"
    case InvalidSize => "size must be a non-negative integer"
    case NotFound(id) => "fragment not found for id=" + id
    case MalformedEntry(_) => "malformed fragment listing entry"
  }

  predicate OccursAt(s: string, sub: string, i: int) {
    0 <= i && i + |sub| <= |s| && s[i..i + |sub|] == sub
  }

  predicate Contains(s: string, sub: string) {
    exists i | 0 <= i <= |s| :: OccursAt(s, sub, i)
  }

  /** The routes answer 404 exactly when the message contains "not found". */
  lemma {:induction false} NotFoundMessage(id: string)
    ensures Contains(Message(NotFound(id)), "not found")
  {
    var m := Message(NotFound(id));
    assert m[9..18] == "not found";
    assert OccursAt(m, "not found", 9);
  }
}
