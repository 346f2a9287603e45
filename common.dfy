/** Small shared vocabulary: optional values, error results, and the
    "falsy value falls back to a default" idiom that the JavaScript and
    Python sources write as `a || b` / `if not a`. */
module Common {

  /** A value that may be absent (JavaScript `undefined`/`null`, Python `None`). */
  datatype Option<+T> = None | Some(value: T)

  /** An HTTP-style error raised by a request handler. */
  datatype Error = Error(status: int, detail: string)

  /** The outcome of a handler that either completes or raises an HTTP error. */
  datatype Result<+T> = Ok(value: T) | Err(error: Error)

  /** A string is truthy when present and non-empty. */
  predicate Truthy(s: Option<string>)
  {
    s.Some? && s.value != ""
  }

  /** `s || fallback` for an optional string. */
  function OrDefault(s: Option<string>, fallback: string): string
  {
    if Truthy(s) then s.value else fallback
  }

  /** `n || 0` for an optional number: absent and zero both give zero. */
  function OrZero(n: Option<int>): int
  {
    if n.Some? then n.value else 0
  }
}
