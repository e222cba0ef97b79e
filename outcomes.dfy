/**
 * Outcomes of the catalog's operations. The service signals failures with
 * HTTP status codes; here each failure kind is a constructor instead.
 */
module Outcomes {

  /** An optional value, for request fields the client may leave out. */
  datatype Option<+T> = None | Some(value: T)
  {
    /** The carried value, or `default` when there is none. */
    function GetOr(default: T): T {
      match this
      case Some(v) => v
      case None => default
    }
  }

  /**
   * Ok carries the response body. The failures are the three kinds the
   * service distinguishes: NotFound (404, a referenced row is absent),
   * Conflict (400, the e-mail is already registered) and Invalid (422, the
   * request body fails validation).
   */
  datatype Outcome<+T> = Ok(value: T) | NotFound | Conflict | Invalid
}
