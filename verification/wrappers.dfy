/** The optional value used throughout the model in place of a Java reference
    that may be `null`: `None` is `null`, `Some(v)` is a non-null reference to `v`. */
module Wrappers {

  datatype Option<T> = None | Some(value: T)
}
