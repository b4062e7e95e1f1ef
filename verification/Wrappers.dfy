/** Result types shared by every module. */
module Wrappers {
  datatype Option<+T> = None | Some(value: T)

  datatype Result<+T, +E> = Ok(value: T) | Err(error: E)

  /** Success or failure of an operation that returns nothing. */
  datatype Outcome<+E> = Pass | Fail(error: E)

  /** Width of the u64 counters and of usize on the 64-bit hosts the harness targets. */
  const U64_MODULUS: nat := 0x1_0000_0000_0000_0000
}
