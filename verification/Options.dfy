/** A value that may be missing: a failed parse, or a call that returned an error. */
module Options {
  datatype Option<+T> = None | Some(value: T)
}
