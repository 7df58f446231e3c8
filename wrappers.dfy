/** The optional value used throughout the model: `None` plays the part of the
    source's `null` (and of `undefined` where the two are not distinguished). */
module Wrappers {
  datatype Option<+T> = None | Some(value: T)
}
