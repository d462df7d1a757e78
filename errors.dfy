/** The exception kinds the backend raises and the fixed mapping from each kind
    to the HTTP status of the error response (GlobalExceptionHandler). */
module Errors {

  datatype Option<T> = None | Some(value: T)

  /** One constructor per exception class that a modelled operation can raise. */
  datatype Exception =
    | BadCredentials        // failed login
    | ResourceNotFound      // a referenced record does not exist
    | ResourceConflict      // a name, username or email is already taken
    | ExternalService       // a Gitea call failed and was wrapped by GiteaService
    | AuthorizationDenied   // a method-security annotation refused the caller
    | UnauthorizedAccess    // an ownership-or-override gate refused the caller
    | IllegalArgument       // unsupported template language, a null password to encode,
                            // or List.subList with a start past its end
    | UserNotFound          // raised by CadetService.updateCadet
    | RemoteCallFailed      // a Gitea HTTP failure that GiteaService does not wrap
    | NullReference         // an absent owner dereferenced (NullPointerException)
    | UncheckedIO           // a read failure while a line stream is collected
    | DataIntegrity         // the database refused a write: a foreign key or a not-null column

  /** What a service call returns: a value, or the exception it throws. */
  datatype Result<T> = Ok(value: T) | Err(error: Exception)

  type Instant = int

  /** Exactly the exception kinds that have a dedicated handler. */
  predicate HasHandler(e: Exception)
  {
    e.BadCredentials? || e.ResourceNotFound? || e.ResourceConflict? ||
    e.ExternalService? || e.AuthorizationDenied? || e.UnauthorizedAccess?
  }

  /** The response code the handler chooses for an exception. */
  function StatusOf(e: Exception): (code: int)
    ensures code == 401 <==> e == BadCredentials
    ensures code == 404 <==> e == ResourceNotFound
    ensures code == 409 <==> e == ResourceConflict
    ensures code == 502 <==> e == ExternalService
    ensures code == 403 <==> (e == AuthorizationDenied || e == UnauthorizedAccess)
    ensures code == 500 <==> !HasHandler(e)
    ensures code != 400
  {
    match e
    case BadCredentials => 401
    case ResourceNotFound => 404
    case ResourceConflict => 409
    case ExternalService => 502
    case AuthorizationDenied => 403
    case UnauthorizedAccess => 403
    case _ => 500
  }

  /** The reason phrase each handler writes into the body's "error" entry. */
  function ErrorPhrase(code: int): string
  {
    match code
    case 401 => "Unauthorized"
    case 403 => "Forbidden"
    case 404 => "Not Found"
    case 409 => "Conflict"
    case 502 => "External Service Error"
    case _ => "Internal Server Error"
  }

  /** The JSON body of an error response: timestamp, status, error, message. */
  datatype ErrorBody = ErrorBody(timestamp: Instant, status: int, error: string, message: string)

  datatype ErrorResponse = ErrorResponse(code: int, body: ErrorBody)

  /** The response built for exception `e` carrying `message`, at time `now`. */
  function BuildResponse(e: Exception, message: string, now: Instant): (r: ErrorResponse)
    ensures r.body.status == r.code == StatusOf(e)
    ensures r.body.error == ErrorPhrase(StatusOf(e))
    ensures r.body.message == message && r.body.timestamp == now
  {
    var code := StatusOf(e);
    ErrorResponse(code, ErrorBody(now, code, ErrorPhrase(code), message))
  }
}
