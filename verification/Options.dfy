/** The optional value used throughout the model for a nullable column or a missing key. */
module Options {
  datatype Option<+T> = None | Some(value: T)
}
