/** A value, or none where the source returns 0 or -1 or panics. */
module Options {

  datatype Option<T> = None | Some(value: T)
}
