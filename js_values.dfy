/**
 The JavaScript values the client-side core handles, reduced to what it reads of them:
 optional values, calls that may throw, the truthiness of an optional string, and the
 browser's `File` object.
 */
module JsValues {

  /** `undefined`/`null` versus a present value. */
  datatype Option<+T> = None | Some(value: T)

  /** A call that either returns a value or throws an `Error` carrying `message`. */
  datatype Result<+T> = Ok(value: T) | Err(message: string)

  /** JavaScript truthiness of a value that is a string or missing: `undefined`, `null` and `""` are falsy. */
  predicate Truthy(s: Option<string>) {
    s.Some? && s.value != ""
  }

  /** The expression `s || fallback`. */
  function OrElse(s: Option<string>, fallback: string): string {
    if Truthy(s) then s.value else fallback
  }

  /** A browser `File`: its name (the key the upload batch uses) and its bytes. */
  datatype File = File(name: string, payload: seq<bv8>)
}
