/** The JavaScript value `undefined` next to a defined value. */
module Wrappers {

  datatype Option<+T> = None | Some(value: T)

  /** A string that may be `undefined` is truthy when present and not the
      empty string. */
  predicate Truthy(s: Option<string>)
  {
    s.Some? && s.value != ""
  }
}
