/** Optional request fields, the error kinds the handlers report, and results. */
module Wrappers {

  /** A request field that may be absent from the body. */
  datatype Option<+T> = None | Some(value: T)

  /**
   * The kinds of failure a handler reports. HTTP status codes and message
   * strings are not modelled: Validation covers every 400 that is not a
   * duplicate plate (a failed schema validator, or a TypeError thrown by the
   * handler on a missing field), Conflict a duplicate licence plate, NotFound
   * a 404.
   */
  datatype Error = NotFound | Conflict | Validation

  datatype Result<+T> = Ok(value: T) | Err(error: Error)

  /** JavaScript truthiness of an optional number: absent and 0 are falsy. */
  predicate TruthyInt(o: Option<int>) {
    o.Some? && o.value != 0
  }

  /** JavaScript truthiness of an optional string: absent and "" are falsy. */
  predicate TruthyString(o: Option<string>) {
    o.Some? && o.value != ""
  }
}
