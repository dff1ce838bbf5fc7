/** The optional-value datatype shared by the parsers and the buffer model. */
module Options {

  datatype Option<+T> = None | Some(value: T)
}
