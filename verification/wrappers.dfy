/** An optional value: what a C function signals with a sentinel or an absent output. */
module Wrappers {
  datatype Option<T> = None | Some(value: T)
}
