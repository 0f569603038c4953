/**
 * Values that may be absent, and the two ways the aggregation can fail.
 */
module Outcomes {

  /** Python's `None` or a value. */
  datatype Option<T> = None | Some(value: T)

  /** A value, or the exception the Python code would raise instead. */
  datatype Result<T> = Success(value: T) | Failure(error: Error)

  /**
   * The exceptions the aggregation can raise:
   * - MaxOfEmpty: `max()` was given an empty dictionary (a ValueError);
   * - MissingKey: a dictionary was read at a key it does not hold (a KeyError).
   */
  datatype Error = MaxOfEmpty | MissingKey(key: string)
}
