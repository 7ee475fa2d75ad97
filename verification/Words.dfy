/** Fixed-width unsigned words of the Go source, and an optional value. */
module Words {
  const TWO32: int := 0x1_0000_0000

  const TWO64: int := 0x1_0000_0000_0000_0000

  type u64 = x: int | 0 <= x < TWO64

  type i64 = x: int | -0x8000_0000_0000_0000 <= x < 0x8000_0000_0000_0000

  /** The value an int64 variable holds after it is assigned x. */
  function Signed(x: int): i64 {
    (x + 0x8000_0000_0000_0000) % TWO64 - 0x8000_0000_0000_0000
  }

  /** The value a uint64 variable holds after it is assigned x. */
  function Wrap(x: int): u64 {
    x % TWO64
  }

  datatype Option<+T> = None | Some(value: T)

  function Min(a: int, b: int): int {
    if a < b then a else b
  }
}
