/** Small helpers shared by the other modules. */
module Wrappers {

  /** A value that may be absent, as a field of a JSON request body may be. */
  datatype Option<+T> = None | Some(value: T)

  /** JavaScript truthiness of a string-valued request field or cookie:
      an absent value and the empty string are both falsy. */
  predicate Truthy(x: Option<string>) {
    x.Some? && x.value != ""
  }
}
