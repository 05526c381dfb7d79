/** A value that may be missing: Go's nil pointers, absent map entries and failed replies. */
module Options {
  datatype Option<+T> = None | Some(value: T)
}
