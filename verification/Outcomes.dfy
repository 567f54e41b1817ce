/** The exceptions a caller can observe, as values. */
module Outcomes {

  datatype Error = InvalidArgument | OutOfRange | LogicError | RuntimeError | Overflow

  datatype Result<+T> = Ok(value: T) | Err(error: Error)
}
