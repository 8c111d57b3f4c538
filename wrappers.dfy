/** A value that may be absent: a null `const char*` message, a step that
    sends no event. */
module Wrappers {
  datatype Option<T> = None | Some(value: T)
}
