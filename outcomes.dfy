/** The outcomes a request can end in: a success carrying an HTTP status and
    a body, or one of the typed failures the handlers and middleware raise. */
module Outcomes {

  datatype Option<T> = None | Some(value: T)

  /** The error classes `ValidationError`, `NotFoundError` and
      `UnauthorizedError`, each with its message. */
  datatype Failure =
    | ValidationError(message: string)
    | NotFound(message: string)
    | Unauthorized(message: string)

  /** What a handler hands to the response: `res.status(status).json(body)`,
      or a failure passed on to the error handler. */
  datatype Reply<T> = Ok(status: int, body: T) | Fail(error: Failure)

  /** A guard that lets the request through or stops it with a failure
      (a middleware that calls `next()` or `next(err)`). */
  datatype Check = Pass | Reject(error: Failure)
}
