/** The optional value used wherever the source has a nullable pointer or `None`. */
module Options {
  datatype Option<T> = None | Some(value: T)
}
