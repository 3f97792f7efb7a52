/** Option and result wrappers, and small helpers, shared by every module of the model. */
module Results {

  /** A value that may be absent: Python's `None` or a value. */
  datatype Option<+T> = None | Some(value: T)

  /** The outcome of an operation that may raise. */
  datatype Result<+T, +E> = Ok(value: T) | Err(error: E)

  function Min(a: int, b: int): int
  {
    if a <= b then a else b
  }

  function Max(a: int, b: int): int
  {
    if a <= b then b else a
  }

  /** No element occurs twice. */
  predicate Distinct<T(==)>(s: seq<T>)
  {
    forall i, j :: 0 <= i < j < |s| ==> s[i] != s[j]
  }
}

/** The exceptions the pipeline raises, as distinguishable kinds. */
module Errors {

  datatype Error =
    | InvalidQuery    // ValueError: neither a keyword nor a location to search on
    | LimitError      // OGReLimitError: the limit-status response lacks a key on its path
    | QueryError      // OGReQueryError: a search response has no `statuses`
    | TransportError  // the image fetcher failed
    | ShapeError      // TypeError, IndexError, ValueError or AttributeError raised by Python on data of an unexpected shape
}
