/** `get_available_threads`: the hardware concurrency reported by the C++
    runtime, an `unsigned int` that is 0 when unknown, returned as an `int`. */
module Capacity {

  const INT_MAX: int := 0x7FFF_FFFF
  const UINT_LIMIT: int := 0x1_0000_0000

  /** `static_cast<int>` of a 32-bit unsigned value: values above `INT_MAX`
      wrap around to negative ones (two's complement). */
  function NarrowToInt(n: nat): (r: int)
    requires n < UINT_LIMIT
    ensures -INT_MAX - 1 <= r <= INT_MAX
    ensures r == n || r == n - UINT_LIMIT
  {
    if n <= INT_MAX then n else n - UINT_LIMIT
  }

  /** The reported worker capacity: the hardware count, or 1 when the runtime
      reports 0. It is at least 1 for every count an `int` can hold. */
  function AvailableThreads(hardware: nat): (n: int)
    requires hardware < UINT_LIMIT
    ensures hardware == 0 ==> n == 1
    ensures 0 < hardware <= INT_MAX ==> n == hardware
    ensures n >= 1 <==> hardware <= INT_MAX
  {
    if hardware == 0 then 1 else NarrowToInt(hardware)
  }
}
