/** A value that may be missing: undefined, null, or not yet known. */
module Optional {
  datatype Option<T> = None | Some(value: T)
}
