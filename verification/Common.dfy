// Shared result types, and sequences without repetition.
module Common {
  datatype Option<+T> = None | Some(value: T)

  /** How the services' exceptions are told apart by their callers. */
  datatype Error = NotFound | BadRequest | Forbidden | Conflict | Unavailable

  datatype Result<+T> = Success(value: T) | Failure(error: Error)

  ghost predicate Distinct<T>(xs: seq<T>)
  {
    forall i, j :: 0 <= i < j < |xs| ==> xs[i] != xs[j]
  }
}
