/** Failure-compatible wrappers shared by every module of the model. */
module Common {

  /** Rust's `Option<T>`. */
  datatype Option<+T> = None | Some(value: T)

  /** Rust's `Result<T, E>`. */
  datatype Result<+T, +E> = Ok(value: T) | Err(error: E) {
    predicate IsFailure() {
      Err?
    }

    function PropagateFailure<U>(): Result<U, E>
      requires Err?
    {
      Err(error)
    }

    function Extract(): T
      requires Ok?
    {
      value
    }
  }

  /** The set of elements of a sequence. */
  function Elements<T>(s: seq<T>): set<T> {
    set x | x in s
  }

  /** `s` lists every element of `e` exactly once, in some order. */
  ghost predicate Enumerates<T>(s: seq<T>, e: set<T>) {
    && Elements(s) == e
    && (forall i, j :: 0 <= i < j < |s| ==> s[i] != s[j])
  }
}
