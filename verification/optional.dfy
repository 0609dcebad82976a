/** A minimal optional value, used for Python's `None` and for the outcome of
    parsing a text entry with `int(...)` (None stands for a `ValueError`). */
module Optional {

  datatype Option<+T> = None | Some(value: T) {

    /** The held value, or `fallback` when there is none. */
    function GetOr(fallback: T): (r: T)
      ensures Some? ==> r == value
      ensures None? ==> r == fallback
    {
      match this
      case Some(v) => v
      case None => fallback
    }
  }
}
