/** A value that may be missing: NULL in the original. */
module Options {
  datatype Option<+T> = None | Some(value: T)
}
