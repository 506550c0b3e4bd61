/** Option, Result and Either: the shapes Rust's `Option`, `Result` and
    `rarena_allocator::either::Either` take in this model. */
module Wrappers {

  datatype Option<+T> = None | Some(value: T) {
    function GetOr(default: T): T {
      match this
      case Some(v) => v
      case None => default
    }
  }

  datatype Result<+T, +E> = Ok(value: T) | Err(error: E)

  datatype Either<+L, +R> = Left(left: L) | Right(right: R)

  /** Rust's `Either::unwrap_right` applied to the error of a result. */
  function UnwrapRight<T, L, R>(r: Result<T, Either<L, R>>): (u: Result<T, R>)
    requires r.Ok? || r.error.Right?
    ensures u.Ok? <==> r.Ok?
    ensures u.Ok? ==> u.value == r.value
    ensures u.Err? ==> Right(u.error) == r.error
  {
    match r
    case Ok(x) => Ok(x)
    case Err(e) => Err(e.right)
  }
}
