/** A value that may be missing: a NULL pointer, an absent JSON member. */
module Options {
  datatype Option<+T> = None | Some(value: T)
}
