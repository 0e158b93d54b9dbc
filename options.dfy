/** The optional value returned by a regular-expression match. */
module Options {

  datatype Option<+T> = None | Some(value: T)
}
