/** A value that may be absent, as std::optional and null pointers are used in the client. */
module Options {
  datatype Option<T> = None | Some(value: T)
}
