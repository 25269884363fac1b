/** The conventional optional value, used for the outcome of decoding a body as JSON. */
module Wrappers {

  datatype Option<+T> = None | Some(value: T)
}
