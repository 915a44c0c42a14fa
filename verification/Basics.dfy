/** Machine-width types, results and errors shared by every module. */
module Basics {
  datatype Option<+T> = None | Some(value: T)

  /** The error codes of foundation/error.hpp. */
  datatype Error =
    | BufferTooSmall
    | InvalidValue
    | Unsupported
    | ShortPacket
    | BadRtpVersion
    | InvalidBackendState
    | SystemFailure
    | OperationInterrupted
    | OperationAborted

  datatype Result<+T> = Ok(value: T) | Err(error: Error)

  const TWO_31: int := 0x8000_0000
  const TWO_32: int := 0x1_0000_0000
  const TWO_64: int := 0x1_0000_0000_0000_0000

  type u8 = x: int | 0 <= x < 0x100
  type u16 = x: int | 0 <= x < 0x1_0000
  type u32 = x: int | 0 <= x < 0x1_0000_0000
  type u64 = x: int | 0 <= x < 0x1_0000_0000_0000_0000

  lemma IntSetEmptyOrElement(s: set<int>)
    ensures s == {} || exists x :: x in s
  {
    if !exists x :: x in s {
      assert s == {};
    }
  }
}
