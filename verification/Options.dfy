/** A value that may be missing: a null pointer, an absent entry, a failed operation. */
module Options {
  datatype Option<+T> = None | Some(value: T)
}
