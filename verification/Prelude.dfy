/** Types shared by every module of the model. */
module Prelude {

  datatype Option<+T> = None | Some(value: T)

  datatype Result<+T, +E> = Ok(value: T) | Err(error: E)

  /** An instant in nanoseconds; `None` stands for Go's zero `time.Time`, which lies
      before every instant the program can read from its clock. */
  type Stamp = Option<int>

  /** Whether `deadline.Sub(now) > 0`. */
  predicate Pending(deadline: Stamp, now: int) {
    deadline.Some? && now < deadline.value
  }

  function Max(a: int, b: int): int {
    if a < b then b else a
  }

  /** The later of two stamps, as `After` orders them. */
  function Later(a: Stamp, b: Stamp): Stamp {
    if a.None? then b
    else if b.None? then a
    else Some(Max(a.value, b.value))
  }
}
