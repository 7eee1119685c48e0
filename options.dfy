/** A value that may be missing (a dictionary lookup, a profit not yet booked). */
module Options {
  datatype Option<T> = None | Some(value: T)
}
