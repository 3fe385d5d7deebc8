/** A value that may be missing. */
module Options {
  datatype Opt<T> = None | Some(value: T)
}
