/** The optional value used wherever the C code stores a pointer that may be NULL. */
module Opt {
  datatype Option<+T> = None | Some(value: T)
}
