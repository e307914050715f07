/** A value that may be absent: NULL, an empty slot, a refused line. */
module Options {
  datatype Option<+T> = None | Some(value: T)
}
