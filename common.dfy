/** Values shared by every handler: optional values, raw request fields and the
    application error that handlers pass to the error middleware. */
module Common {

  datatype Option<+T> = None | Some(value: T)

  /** A request field as Express hands it over: absent (`undefined`), JSON `null`,
      a string (query parameters, multipart fields, JSON strings) or a JSON integer. */
  datatype Raw = Missing | Null | Text(s: string) | Num(n: int)

  /** What `createCustomError(message, status)` builds. */
  datatype ApiError = ApiError(message: string, status: nat)

  /** A handler either answers with a value or calls `next` with an ApiError. */
  datatype Result<+T> = Ok(value: T) | Err(error: ApiError)

  /** JavaScript truthiness of a raw field. */
  predicate Truthy(r: Raw)
  {
    match r
    case Missing => false
    case Null => false
    case Text(s) => s != []
    case Num(n) => n != 0
  }

  /** JavaScript truthiness of an optional string (`undefined`, `null` and `''` are falsy). */
  predicate Present(s: Option<string>)
  {
    s.Some? && s.value != []
  }
}
