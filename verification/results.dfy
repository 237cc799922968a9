/** Optional values and fallible results.
    `Option` stands for a JavaScript value that may be `undefined`;
    `Result` stands for a promise that resolves (`Ok`) or rejects (`Err`). */
module Results {

  datatype Option<+T> = None | Some(value: T)

  datatype Result<+T, +E> = Ok(value: T) | Err(error: E) {

    predicate IsFailure() {
      Err?
    }

    function PropagateFailure<U>(): Result<U, E>
      requires Err?
    {
      Err(error)
    }

    function Extract(): T
      requires Ok?
    {
      value
    }
  }
}
