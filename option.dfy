/** An optional value: a pointer that may be NULL, an index that may be absent. */
module Options {
  datatype Option<T> = None | Some(value: T)
}
