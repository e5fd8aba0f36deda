/** Go's 64-bit integers: their ranges, wrap-around and conversions. */
module MachineInts {
  const U64: int := 0x1_0000_0000_0000_0000
  const I64: int := 0x8000_0000_0000_0000

  type Uint64 = x: int | 0 <= x < U64
  type Int64 = x: int | -I64 <= x < I64

  /** The value of an arithmetic result, or of a signed value, as a uint64. */
  function ToUint64(x: int): Uint64 { x % U64 }

  /** The conversion int64(x). */
  function ToInt64(x: Uint64): Int64 { if x < I64 then x else x - U64 }
}
