/** What an Express handler or middleware hands back to the client. */
module Http {
  const OK: int := 200
  const Created: int := 201
  const BadRequest: int := 400
  const Unauthorized: int := 401
  const NotFound: int := 404
  const Conflict: int := 409
  const ServerError: int := 500

  /** The body of a response: a JSON document, a `{ message }` object, or nothing
      (`res.send()` and `res.sendStatus(code)` with its status text). */
  datatype Body<+T> = Json(value: T) | Message(text: string) | NoContent

  datatype Reply<+T> = Reply(status: int, body: Body<T>)

  /** A middleware either answers the request itself or calls `next()` once. */
  datatype Outcome<+T> = Halt(reply: Reply<T>) | CallNext
}
