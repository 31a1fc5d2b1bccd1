/** Failure-carrying datatypes shared by every module: the counterparts of Rust's
    `Option`, `Result<T>` and `Result<()>`, plus the state left behind by a call on
    `&mut self`. */
module Wrappers {

  /** An optional value. */
  datatype Option<+T> = None | Some(value: T)

  /** A value or an error. */
  datatype Result<+T, +E> = Ok(value: T) | Err(error: E)

  /** Success without a value, or an error. */
  datatype Outcome<+E> = Pass | Fail(error: E)

  /** What a call on a mutable receiver leaves behind: the receiver's new state and what
      the call returned. A failing call can still have changed the state, so both are kept. */
  datatype Step<+S, +E> = Step(state: S, outcome: Outcome<E>)
}
