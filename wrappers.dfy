/** The conventional optional value, used for "no presentation key" and "no ICE candidate". */
module Wrappers {
  datatype Option<T> = None | Some(value: T)
}
