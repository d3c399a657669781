/** The optional-value wrapper shared by the other modules. */
module Wrappers {

  datatype Option<+T> = None | Some(value: T)

  /** Python's truthiness for an optional string parameter: given and non-empty. */
  predicate Truthy(s: Option<string>)
  {
    s.Some? && s.value != ""
  }
}
