/** A value that may be missing: Go's nil, a second result of false, or an option. */
module Options {

  datatype Option<+T> = None | Some(value: T)
}
