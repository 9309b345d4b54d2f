/** Responses and middleware decisions shared by the REST handlers. */
module Http {

  const Ok: int := 200
  const Created: int := 201
  const BadRequest: int := 400
  const Forbidden: int := 403
  const NotFound: int := 404
  const Conflict: int := 409
  const ServerError: int := 500

  /** One entry of express-validator's error list. */
  datatype FieldError = FieldError(field: string, message: string)

  /**
   * The result of a handler: a success response, the 400 reply of
   * `handleValidationErrors`, or an error response carrying a status and a
   * message (whether written directly or passed to `next(err)`).
   */
  datatype Outcome<T> = Success(status: int, value: T) | Invalid(errors: seq<FieldError>) | Error(status: int, message: string)

  /** A middleware decision: call `next()`, or answer with a status and a message. */
  datatype Gate = Next | Deny(status: int, message: string)
}
