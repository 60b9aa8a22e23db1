/**
 * What a route handler answers with, and how it reads JSON body fields.
 */
module Http {
  import opened Schema

  const Ok := 200
  const BadRequest := 400
  const Unauthorized := 401
  const NotFound := 404
  const ServerError := 500

  /** A JSON response: its status and its `message` (or `error`) text. */
  datatype Reply = Reply(status: int, message: string)

  const InternalError := Reply(ServerError, "Internal server error")

  /** A handler result that either carries a payload (status 200) or a failure reply. */
  datatype Outcome<T> = Success(value: T) | Failure(reply: Reply)

  /**
   * JavaScript truthiness of a string-valued body field: a missing field,
   * `null` and the empty string are all falsy.
   */
  predicate Present(field: Option<string>)
  {
    field.Some? && field.value != ""
  }
}
