/** Failure-carrying datatypes shared by the three components. */
module Wrappers {

  /** A value that may be absent; Python's `None` return. */
  datatype Option<+T> = None | Some(value: T)

  /** The outcome of an operation that either produces a value or raises. */
  datatype Result<+T, +E> = Success(value: T) | Failure(error: E)

  /** What a method of one of the components that can return a value leaves
      behind: the component's state after the call, and the value the call produced
      (`None` when the call caught an exception and recorded it). For a
      method that only hands a value on, such as `send_feedback`, the value
      is what it hands on. */
  datatype Reply<+S, +T> = Reply(state: S, value: Option<T>)
}
