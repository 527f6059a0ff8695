/** The optional value used throughout the model in place of a null pointer or
    an unset configuration value. */
module Wrappers {

  datatype Option<+T> = None | Some(value: T) {

    /** The value if present, otherwise `default` (Rust's `unwrap_or`). */
    function GetOr(default: T): (r: T)
      ensures Some? ==> r == value
      ensures None? ==> r == default
    {
      match this
      case Some(v) => v
      case None => default
    }

    /** `f` applied to the value if present, otherwise `default` (Rust's
        `map(f).unwrap_or(default)`). */
    function MapOr<U>(f: T -> U, default: U): (r: U)
      ensures Some? ==> r == f(value)
      ensures None? ==> r == default
    {
      match this
      case Some(v) => f(v)
      case None => default
    }
  }
}
