/** Values shared by every part of the model: optional values, results, and the
    error object that services throw and the error handler turns into a response. */
module Common {

  /** Identifiers of stored documents (the text of a database object id). */
  type Id = string

  datatype Option<+T> = None | Some(value: T) {
    function GetOr(default: T): T {
      match this
      case Some(v) => v
      case None => default
    }
  }

  datatype Result<+T, +E> = Success(value: T) | Failure(error: E)

  /** An error as the services throw it: an HTTP status attached at the point of
      failure and a message. A status of 0 stands for "no status attached", which
      is what a database or schema error carries; JavaScript treats both as falsy. */
  datatype AppError = AppError(status: int, message: string)

  /** The 404 every service raises for a missing product. */
  const ProductNotFound := AppError(404, "Product not found")

  function Min(a: int, b: int): int {
    if a <= b then a else b
  }

  function Max(a: int, b: int): int {
    if a >= b then a else b
  }

  /** An integer greater than zero, used for page numbers and page sizes. */
  type Positive = n: int | n >= 1 witness 1
}
