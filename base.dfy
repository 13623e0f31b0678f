/** Small value wrappers shared by every module: an optional value (a JavaScript
    `null`/`undefined` or a present value) and a handler outcome. */
module Base {

  datatype Option<+T> = None | Some(value: T)

  datatype Result<+R, +E> = Success(value: R) | Failure(error: E)

  function Max(a: int, b: int): int {
    if a >= b then a else b
  }
}
