/** Optional values and failing results, as the evaluator's `None` and raised exceptions. */
module Options {

  datatype Option<+T> = None | Some(value: T)

  datatype Result<+T, +E> = Success(value: T) | Failure(error: E)
}
