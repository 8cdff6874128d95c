/** Go's fixed-width types and an Option for nil-able values, shared by the counter and the
    replica-update handlers. */
module Primitives {

  /** Go's `byte` (uint8). */
  type byte = x: int | 0 <= x < 0x100

  /** 2^64: one past the largest Go `uint64`. */
  const TWO_TO_THE_64: nat := 0x1_0000_0000_0000_0000

  /** Go's `uint64`. Arithmetic on it wraps modulo 2^64, which the model writes out. */
  type uint64 = x: int | 0 <= x < 0x1_0000_0000_0000_0000

  /** A value that may be missing: a nil pointer or a nil error in Go. */
  datatype Option<+T> = None | Some(value: T)
}
