/** The outcome of an aggregation: a value, or the reason none could be produced. */
module Outcomes {
  datatype Result<T, E> = Ok(value: T) | Err(error: E)
}
