/** A value that may be missing: a null pointer, or the -1 and NULL results of the original. */
module Options {
  datatype Option<+T> = None | Some(value: T)
}
