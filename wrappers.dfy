/** Option and Result, the two failure-carrying shapes the model uses for Python's
    `None` results and raised exceptions. */
module Wrappers {

  datatype Option<+T> = None | Some(value: T)

  datatype Result<+T, +E> = Ok(value: T) | Err(error: E)
}

/** The Python exceptions the modelled code raises or lets escape. */
module PyErrors {
  datatype Error =
    | ZeroDivisionError
      /** `math.log` of a non-positive number. */
    | MathDomainError
    | KeyError(key: string)
    | IndexError
    | ValueError(message: string)
    | RuntimeError(message: string)
      /** `sqlite3.Error` raised by a statement of the database. */
    | DatabaseError
}
