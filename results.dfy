/** Option and Result values shared by the modules of the racing backend model. */
module Results {

  /** A value that may be absent (a nullable column, a query without a match). */
  datatype Option<+T> = None | Some(value: T)

  /** The outcome of a request: a response, or the error the handler raises. */
  datatype Result<+T, +E> = Ok(value: T) | Err(error: E)
}
