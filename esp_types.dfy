/** Types shared by the adapters: the ESP-IDF error codes the core returns,
    a result wrapper for operations that fill an out-pointer, and the
    fixed-width integer types of the C code. */
module EspTypes {

  /** The `esp_err_t` values the modelled code can return. */
  datatype EspErr =
    | Ok            // ESP_OK
    | NotSupported  // ESP_ERR_NOT_SUPPORTED
    | InvalidArg    // ESP_ERR_INVALID_ARG
    | Fail          // ESP_FAIL
    | NvsFailure    // any error reported by the NVS library (open, write or commit)

  /** A C pointer that may be NULL. */
  datatype Option<T> = None | Some(value: T)

  /** An operation that either fills its out-parameter or reports an error. */
  datatype Result<T> = Success(value: T) | Failure(err: EspErr)

  /** `uint8_t` */
  newtype byte = x: int | 0 <= x < 256

  /** A single bit: a GPIO level or a one-bit status. */
  newtype bit = x: int | 0 <= x < 2

  const U32Limit: nat := 0x1_0000_0000
  const Int32Min: int := -0x8000_0000
  const Int32Max: int := 0x7FFF_FFFF

  predicate IsU32(n: int) { 0 <= n < U32Limit }
  predicate IsInt32(x: int) { Int32Min <= x <= Int32Max }
}
