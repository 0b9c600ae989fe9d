/** Types shared by every module. */
module Common {

  datatype Option<+T> = None | Some(value: T)

  datatype Result<+R, +E> = Ok(value: R) | Err(error: E)

  /** One global clock, in seconds: the nodes' clocks are assumed to be synchronised. */
  type Time = int

  /** The zero value of a time stamp: never seen. */
  const ZERO_TIME: Time := 0
}
