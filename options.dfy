/** The optional value used wherever a JavaScript field may be absent (`undefined` or `null`). */
module Options {

  datatype Option<+T> = None | Some(value: T)

  /** A success value or the error a JavaScript `throw` would carry. */
  datatype Result<+R, +E> = Success(value: R) | Failure(error: E)
}
