/** Rust's `Option` and `Result`, as the rest of the model uses them. */
module Wrappers {

  datatype Option<+T> = None | Some(value: T)

  datatype Result<+T, +E> = Ok(value: T) | Err(error: E) {

    /** `Result::map_err`: an `Ok` passes through, an `Err` is rewritten by `f`. */
    function MapErr<F>(f: E -> F): (r: Result<T, F>)
      ensures Ok? <==> r.Ok?
      ensures Ok? ==> r.value == value
      ensures Err? ==> r.error == f(error)
    {
      match this
      case Ok(v) => Ok(v)
      case Err(e) => Err(f(e))
    }
  }
}
