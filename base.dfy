/** Small shared vocabulary: optional values, results with an error, and
    duplicate-free sequences. */
module Base {

  /** A possibly missing value; `None` stands for a pandas NaN cell. */
  datatype Option<+T> = None | Some(value: T)

  /** The outcome of a step that can raise; `Err` carries the exception. */
  datatype Result<+T, +E> = Ok(value: T) | Err(error: E) {
    predicate IsFailure() { Err? }

    function PropagateFailure<U>(): Result<U, E>
      requires Err?
    {
      Err(error)
    }

    function Extract(): T
      requires Ok?
    {
      value
    }
  }

  /** No element occurs twice in `s`. */
  predicate NoDuplicates<T(==)>(s: seq<T>) {
    forall i, j :: 0 <= i < j < |s| ==> s[i] != s[j]
  }
}
