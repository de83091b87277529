/** The absent-or-present value that the C code expresses with a NULL pointer. */
module Optional {
  datatype Option<+T> = None | Some(value: T)
}
