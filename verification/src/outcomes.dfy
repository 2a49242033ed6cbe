/**
 * Option and Result wrappers shared by every module, and the failures the
 * backend raises.  A `Result` whose error is `Http(s, _)` is what a route
 * turns into an HTTP response with status `s`.
 */
module Outcomes {

  datatype Option<T> = None | Some(value: T)

  /** The custom exception classes of app/core/exceptions.py. */
  datatype ExceptionKind =
    | ValidationError
    | NotFoundError
    | UnauthorizedError
    | ForbiddenError
    | ConflictError
    | InternalServerError

  datatype Failure =
    | Custom(kind: ExceptionKind, message: string)  // a BaseCustomException subclass
    | Http(status: int, detail: string)             // fastapi.HTTPException
    | ValueErr                                      // a plain ValueError
    | RuntimeErr                                    // any other Python exception

  datatype Result<T> = Ok(value: T) | Err(error: Failure) {
    predicate IsFailure() { Err? }

    function PropagateFailure<U>(): Result<U>
      requires Err?
    {
      Err(error)
    }

    function Extract(): T
      requires Ok?
    {
      value
    }
  }
}
