/**
 * What a request can end in: the error responses the framework produces for
 * the exceptions the views raise or let escape, and the pair of new database
 * state and response that every state-changing operation yields.
 */
module Responses {
  import opened Models

  datatype Error =
    /** The request carries no valid credentials (NotAuthenticated). */
    | NotAuthenticated
    /** The user is known but refused (PermissionDenied), with the detail text. */
    | PermissionDenied(detail: string)
    /** `get_object` or `get_object_or_404` found no row (Http404). */
    | NotFound
    /** Serializer validation refused the named fields. */
    | Invalid(fields: set<string>)
    /** The database refused a row that breaks a uniqueness constraint; nothing catches it. */
    | IntegrityError
    /** An uncaught AttributeError in a view. */
    | ServerError

  /** The HTTP status code the framework answers an error with. */
  function StatusCode(e: Error): (code: int)
    ensures 400 <= code < 600
    ensures code == 500 <==> e.IntegrityError? || e.ServerError?
  {
    match e
    case NotAuthenticated => 401
    case PermissionDenied(_) => 403
    case NotFound => 404
    case Invalid(_) => 400
    case IntegrityError => 500
    case ServerError => 500
  }

  datatype Result<+T> = Ok(value: T) | Err(error: Error)

  /** The database after a request and what the request answered. */
  datatype Step<+T> = Step(db: Db, result: Result<T>)
}
