/** Option and Result, the two failure-carrying datatypes the rest of the model uses.
    `Option` stands for Python's `X | None`; `Result` for a constructor that may raise. */
module Wrappers {

  datatype Option<+T> = None | Some(value: T) {

    /** The wrapped value, or `default` for None (Python's `x or default` on optional ints). */
    function GetOr(default: T): T {
      match this
      case Some(v) => v
      case None => default
    }
  }

  datatype Result<+R, +E> = Success(value: R) | Failure(error: E)

  /** Pydantic's `{**old_dump, **new_dump}` on one optional field: the new value when it is
      not None, otherwise the old one. */
  function Overlay<T>(prior: Option<T>, latest: Option<T>): (r: Option<T>)
    ensures r.Some? <==> prior.Some? || latest.Some?
    ensures latest.Some? ==> r == latest
    ensures latest.None? ==> r == prior
  {
    if latest.Some? then latest else prior
  }
}
