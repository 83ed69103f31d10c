/** Failure-carrying results shared by the broker's services. */
module Outcomes {
  /** Largest value of the source's 32-bit counters and weights. */
  const U32_MAX: nat := 0xFFFF_FFFF

  /** Largest value of its 64-bit counters. */
  const U64_MAX: nat := 0xFFFF_FFFF_FFFF_FFFF

  datatype Option<+T> = None | Some(value: T)

  /** Status codes the modelled code returns or branches on. */
  datatype Code =
    | NotFound
    | Unavailable
    | FailedPrecondition
    | InvalidArgument
    | DeadlineExceeded
    | Internal
    | OtherCode(number: nat)

  datatype Result<+T> = Ok(value: T) | Err(code: Code)
}
