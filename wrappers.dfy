/** The optional value used across the model (a missing row, a signed-out user, an unset ref). */
module Wrappers {

  datatype Option<+T> = None | Some(value: T)
}
