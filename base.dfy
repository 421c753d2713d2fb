/** Small value types shared by every module of the model. */
module Base {

  /** Rust's Option. */
  datatype Option<+T> = None | Some(value: T)

  /** A byte (Rust u8). */
  newtype u8 = x: int | 0 <= x < 0x100

  /** A signed 16-bit integer (Rust i16), used for the radio's link metrics. */
  newtype i16 = x: int | -0x8000 <= x < 0x8000

  function Min(a: int, b: int): int { if a <= b then a else b }

  function Max(a: int, b: int): int { if a >= b then a else b }

  /** Rust's `usize::saturating_sub`. */
  function SaturatingSub(a: nat, b: nat): nat { if a >= b then a - b else 0 }

  /** Rust's `char as u8`: keeps the low eight bits of the code point. */
  function ByteOf(c: char): u8 { ((c as int) % 0x100) as u8 }
}
