/** Small failure-carrying datatypes and sequence helpers shared by every module of the model. */
module Wrappers {

  /** A value that may be absent: Python's `None` or a missing dictionary key. */
  datatype Option<+T> = None | Some(value: T) {
    function GetOr(default: T): T {
      match this
      case Some(v) => v
      case None => default
    }
  }

  /** The result of an operation that either yields a value or raises. */
  datatype Result<+T> = Ok(value: T) | Err(error: string)

  /** The result of an operation that returns nothing or raises. */
  datatype Outcome = Pass | Fail(error: string)

  /** The elements of a sequence, as a set. */
  function Elems<T>(s: seq<T>): set<T> {
    set x | x in s
  }

  /** No element occurs twice. */
  predicate Distinct<T(==)>(s: seq<T>) {
    forall i, j :: 0 <= i < j < |s| ==> s[i] != s[j]
  }
}
