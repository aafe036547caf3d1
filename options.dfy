/** The optional value returned where the lexer reads past the end of input. */
module Options {
  datatype Option<T> = None | Some(value: T)
}
