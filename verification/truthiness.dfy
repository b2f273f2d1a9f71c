/** JavaScript truthiness of the optional string values the client tests with `if (x)`. */
module Truthiness {
  import opened Wrappers

  /** `null`, `undefined` and `""` are falsy; every other string is truthy. */
  predicate Truthy(s: Option<string>) {
    s.Some? && s.value != ""
  }
}
