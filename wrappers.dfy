/** The optional-value datatype shared by the other modules: a JavaScript value that may be
    `null`/`undefined` (an option the user left out, a `find` that matched nothing). */
module Wrappers {

  datatype Option<+T> = None | Some(value: T)

  function Min(a: int, b: int): int
  {
    if a <= b then a else b
  }
}
