/** The usual Some/None wrapper, used wherever the C code passes a pointer
    that may be NULL or a call that may fail to produce a value. */
module Wrappers {
  datatype Option<+T> = None | Some(value: T)
}
