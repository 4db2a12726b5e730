/** Failure-compatible wrappers shared by every module of the model: the
    optional value, the success-or-error result, and the owned-or-borrowed
    value (`Cow`) that the library uses for names, paths and descriptors. */
module Results {

  datatype Option<+T> = None | Some(value: T)

  datatype Result<+T, +E> = Ok(value: T) | Err(error: E) {

    /** Applies `f` to the error and leaves a success alone. */
    function MapErr<F>(f: E -> F): (r: Result<T, F>)
      ensures r.Ok? <==> Ok?
      ensures Ok? ==> r.value == value
      ensures Err? ==> r.error == f(error)
    {
      match this
      case Ok(v) => Ok(v)
      case Err(e) => Err(f(e))
    }
  }

  /** A value that is either borrowed from somewhere else or owned outright.
      Both arms carry the same value; only ownership differs. */
  datatype Cow<+T> = Borrowed(value: T) | Owned(value: T) {

    /** Clones a borrowed value into an owned one; an owned value stays as it is. */
    function IntoOwned(): (r: Cow<T>)
      ensures r.Owned?
      ensures r.value == value
    {
      Owned(value)
    }

    /** A borrowed view of the same value. */
    function Borrow(): (r: Cow<T>)
      ensures r.Borrowed?
      ensures r.value == value
    {
      Borrowed(value)
    }
  }
}
