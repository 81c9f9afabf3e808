/** A value that may be missing: what a failed action returns. */
module Options {
  datatype Option<+T> = None | Some(value: T)
}
