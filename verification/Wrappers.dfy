/** An optional value. The model uses `None` for an absent field, for a parser's `null`, and for an
    exception that a caller turns into an error code. */
module Wrappers {
  datatype Option<+T> = None | Some(value: T)
}
