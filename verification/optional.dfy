/**
 Optional values, failure-carrying results, and the JavaScript notion of a
 "truthy" string field that the contact-form handler uses for every presence
 check.
 */
module Optional {

  /** A value that may be absent: a JSON field that is missing or `undefined`. */
  datatype Option<+T> = None | Some(value: T)

  /** Either a value or the reason there is none. */
  datatype Result<+R, +E> = Success(value: R) | Failure(error: E)

  /** JavaScript truthiness of an optional string: `!x` holds exactly when the
      field is missing or is the empty string. */
  predicate Truthy(o: Option<string>)
  {
    o.Some? && o.value != ""
  }

  /** The field as the HTML template sees it: a falsy value is dropped. */
  function Present(o: Option<string>): Option<string>
  {
    if Truthy(o) then o else None
  }
}
