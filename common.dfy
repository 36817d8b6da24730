/** Small shared vocabulary: optional values and record identities. */
module Common {

  /** A value that may be absent (`undefined`/`null` in the application). */
  datatype Option<+T> = None | Some(value: T) {
    function GetOr(default: T): T {
      match this
      case Some(v) => v
      case None => default
    }
  }

  /** Database identity of a stored record (a MongoDB ObjectId in the application). */
  type Id = nat

  /** A text field counts as present when it is given and non-empty (JavaScript truthiness). */
  predicate Present(s: Option<string>) {
    s.Some? && s.value != ""
  }
}
