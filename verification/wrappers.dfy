/** The result type every conversion returns: the converted value, or an
    error that describes why the conversion was refused. */
module Wrappers {

  datatype Result<+T, +E> = Ok(value: T) | Err(error: E) {

    /** Replaces the error by `f(error)`, leaving a successful value alone
        (Rust's `Result::map_err`). */
    function MapErr<E2>(f: E --> E2): (r: Result<T, E2>)
      requires Err? ==> f.requires(error)
      ensures Ok? <==> r.Ok?
      ensures Ok? ==> r.value == value
      ensures Err? ==> r.error == f(error)
    {
      match this
      case Ok(v) => Ok(v)
      case Err(e) => Err(f(e))
    }
  }
}
