/** Machine-level values shared by every part of the model. */
module Scalars {

  datatype Option<+T> = None | Some(value: T)

  /** Rust's `u32`. */
  newtype u32 = x: int | 0 <= x < 0x1_0000_0000

  /** A byte of device memory. */
  type Byte = bv8

  /** An `f32`, seen only as its 32 raw bits: no floating-point arithmetic is modelled. */
  type F32 = bv32

  /** An `f64`, likewise seen only as its raw bits. */
  type F64 = bv64

  /** IEEE 754 binary32 encodings of 0.0 and 1.0. */
  const F32_ZERO: F32 := 0
  const F32_ONE: F32 := 0x3F80_0000

  /** IEEE 754 binary64 encoding of 0.0. */
  const F64_ZERO: F64 := 0

  /** Instants and durations are counted in nanoseconds, the resolution of `std::time::Duration`. */
  const NANOS_PER_SEC: nat := 1_000_000_000

  /** The number of seconds a duration of `nanos` stands for (what `as_secs_f32` rounds). */
  function Seconds(nanos: nat): real
  {
    nanos as real / NANOS_PER_SEC as real
  }
}
