/** Values shared by every handler: optional values, the JSON fields a request
    body can carry, and the outcome a handler sends back. */
module Common {

  datatype Option<+T> = None | Some(value: T)

  /** A field of a parsed JSON request body, as far as the validation schemas
      distinguish it: a string, a boolean, or anything else (null, a number,
      an object, an array). A missing field is `None` at the use site. */
  datatype Field = Str(s: string) | Bool(b: bool) | Other

  /** What a handler ends with.
      - `Ok(status, body)`: `res.status(status).json(body)` (status 200 when the
        handler calls `res.json` directly);
      - `Fail(status, error)`: `res.status(status).json({ error })`;
      - `Invalid`: the request body failed its schema and the schema library
        threw; the mapping of that exception to a response is done by an error
        handler outside this model;
      - `Thrown(message)`: any other error thrown inside the handler, handed to
        the same outside error handler. */
  datatype Reply<+T> =
    | Ok(status: nat, body: T)
    | Fail(status: nat, error: string)
    | Invalid
    | Thrown(message: string)

  /** JavaScript truthiness of a possibly absent string: absent and "" are falsy. */
  predicate Truthy(o: Option<string>) {
    o.Some? && o.value != ""
  }

  /** JavaScript `o || fallback` for a possibly absent string. */
  function OrElse(o: Option<string>, fallback: string): string
  {
    if Truthy(o) then o.value else fallback
  }
}
