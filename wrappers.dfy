module Wrappers {

  /** An optional value: a handle that may be null, or the outcome of a parse that may fail. */
  datatype Option<+T> = None | Some(value: T)
}
