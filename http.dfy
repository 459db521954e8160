/**
 * The request and response values the route handlers exchange: parsed JSON
 * bodies, and the error replies with their HTTP status.
 */
module Http {
  import opened Wrappers
  import opened Dicts

  /** A parsed JSON value. Objects keep their keys in order. */
  datatype Json =
    | JNull
    | JBool(b: bool)
    | JNum(n: real)
    | JStr(s: string)
    | JArr(items: seq<Json>)
    | JObj(fields: Dict<Json>)

  /**
   * The request body as the handlers see it: a JSON object, or nothing
   * when the body is missing or does not parse.
   */
  type Body = Option<Dict<Json>>

  /** `not data`: no body, or an empty object. */
  predicate IsEmptyBody(body: Body) {
    body.None? || body.value == []
  }

  /** `key in data` for a body that is an object. */
  predicate HasKey(body: Body, key: string) {
    body.Some? && Get(body.value, key).Some?
  }

  /** An error reply: its status code and its message. */
  datatype HttpError = HttpError(status: nat, message: string)

  const BadRequest: nat := 400
  const NotFound: nat := 404
  const ServerError: nat := 500
}
