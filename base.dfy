/** Shared result types: Python's exceptions become explicit error values. */
module Base {

  datatype Option<+T> = None | Some(value: T)

  /** The two exceptions the /proc parsers and key parsers can raise. */
  datatype ParseError = ValueError | IndexError

  datatype Result<+T> = Ok(value: T) | Err(error: ParseError)
}
