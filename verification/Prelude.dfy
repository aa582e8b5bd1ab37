/** Result types and a set conversion shared by every component. */
module Prelude {
  datatype Option<+T> = None | Some(value: T)

  datatype Result<+T, +E> = Ok(value: T) | Err(error: E)

  function Elements<T(==)>(s: seq<T>): set<T> {
    set x | x in s
  }
}
