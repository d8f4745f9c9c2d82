/**
 * Values shared by every route of the backend: optional JSON fields, the
 * outcome of a handler, and the HTTP status codes the handlers answer with.
 */
module Common {

  datatype Option<T> = None | Some(value: T) {
    function GetOr(default: T): T {
      if Some? then value else default
    }
  }

  /** Why a request was refused with 400 (one constructor per error message). */
  datatype Reason =
    | MissingCredentials     // "Username and password are required"
    | PasswordTooShort       // "Password must be at least 6 characters"
    | UsernameTaken          // "Username already exists"
    | NoFieldsToUpdate       // "No fields provided to update"
    | MissingNames           // "Given name and family name are required"
    | MissingPeople          // "Both people are required"
    | SelfRelationship       // "A person cannot have a relationship with themselves"
    | InvalidRelationType    // "Invalid relationship type"
    | PeopleNotOwned         // "Both people must exist and belong to the current user"
    | MissingPersonOrTitle   // "Person and title are required"
    | InvalidFile            // "Invalid file"

  /** Why a request was refused with 401. */
  datatype AuthFailure =
    | AuthenticationRequired // the gate found no user for the bearer token
    | InvalidCredentials     // "Invalid username or password"

  datatype Error =
    | BadRequest(reason: Reason)
    | Unauthorized(failure: AuthFailure)
    | NotFound

  /** The outcome of a handler: a value on success, otherwise an error. */
  datatype Result<T> = Ok(value: T) | Err(error: Error)

  /** The HTTP status code a handler answers an error with. */
  function StatusOf(e: Error): (code: int)
    ensures code == 400 <==> e.BadRequest?
    ensures code == 401 <==> e.Unauthorized?
    ensures code == 404 <==> e.NotFound?
  {
    match e
    case BadRequest(_) => 400
    case Unauthorized(_) => 401
    case NotFound => 404
  }

  /** Python truthiness of an optional string field: present and non-empty. */
  predicate Present(s: Option<string>) {
    s.Some? && s.value != ""
  }

  /** Python truthiness of an optional integer field: present and non-zero. */
  predicate PresentId(x: Option<int>) {
    x.Some? && x.value != 0
  }
}
