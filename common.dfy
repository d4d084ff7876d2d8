/** Small shared vocabulary: optional values, JavaScript truthiness of the
    optional strings that query parameters and form fields arrive as, and
    the HTTP status codes the handlers answer with. */
module Common {

  datatype Option<+T> = None | Some(value: T)

  /** `!!x` for a value that is either absent (null/undefined) or a string:
      the empty string is falsy in JavaScript. */
  predicate Truthy(o: Option<string>)
  {
    o.Some? && o.value != ""
  }

  /** `x || ""` for an optional string. */
  function OrEmpty(o: Option<string>): (r: string)
    ensures Truthy(o) ==> r == o.value
    ensures !Truthy(o) ==> r == ""
  {
    if o.Some? then o.value else ""
  }

  const OK: nat := 200
  const CREATED: nat := 201
  const BAD_REQUEST: nat := 400
  const UNAUTHORIZED: nat := 401
  const NOT_FOUND: nat := 404
  const METHOD_NOT_ALLOWED: nat := 405
  const INTERNAL_ERROR: nat := 500
}
