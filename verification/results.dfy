/** Exceptions of the recipe loader, carried as values. */
module Results {

  /** An optional value: the loader's `null` from a lookup that has no match. */
  datatype Option<+T> = None | Some(value: T)

  /** The three ways a load can abort. */
  datatype LoadError =
    | AssumptionFailed   // the decoded root is not an array (AssumptionFailedError)
    | InvalidArgument    // a wildcard-meta item met by a strict check (InvalidArgumentException)
    | ItemDecodeFailure  // Item::jsonDeserialize rejected the data of one item

  /** Either a value or the error that aborted the computation; usable with `:-`. */
  datatype Result<+T> = Ok(value: T) | Err(error: LoadError) {

    predicate IsFailure() {
      Err?
    }

    function PropagateFailure<U>(): Result<U>
      requires Err?
    {
      Err(error)
    }

    function Extract(): T
      requires Ok?
    {
      value
    }
  }
}
