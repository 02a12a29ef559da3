/** The optional child-process handle of the supervisor (null in the source). */
module Wrappers {

  datatype Option<+T> = None | Some(value: T)

  /** The set holding the value of `o`, if any. */
  function AsSet<T>(o: Option<T>): (s: set<T>)
    ensures o.None? ==> s == {}
    ensures o.Some? ==> s == {o.value}
  {
    match o
    case None => {}
    case Some(v) => {v}
  }
}
