/** The optional value used throughout the model: a JSON field that may be absent,
    a focus move that may not happen, a request that may not be sent. */
module Wrappers {
  datatype Option<+T> = None | Some(value: T)
}
