/** Option and Result values used where the node's code relies on a missing
    key or a thrown error. */
module Wrappers {

  datatype Option<+T> = None | Some(value: T)

  /** The value of an option as a list of zero or one elements. */
  function ListOf<T>(o: Option<T>): (r: seq<T>)
    ensures |r| <= 1
    ensures r == [] <==> o.None?
    ensures o.Some? ==> r[0] == o.value
  {
    if o.Some? then [o.value] else []
  }

  /** The outcome of a step that may throw: a value, or the thrown error's message. */
  datatype Result<+T> = Ok(value: T) | Err(error: string)
}
