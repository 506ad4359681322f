/** Small shared vocabulary: optional values, results, the machine integer
    widths the Rust code uses, bytes, and decimal rendering of numbers. */
module Basics {

  datatype Option<+T> = None | Some(value: T) {
    function GetOr(default: T): T {
      match this
      case Some(v) => v
      case None => default
    }
  }

  datatype Result<+T, +E> = Ok(value: T) | Err(error: E)

  newtype byte = x: int | 0 <= x < 256

  const MaxU16: int := 0xFFFF
  const MaxU32: int := 0xFFFF_FFFF
  const MaxU64: int := 0xFFFF_FFFF_FFFF_FFFF

  type u16 = x: int | 0 <= x <= MaxU16
  type u32 = x: int | 0 <= x <= MaxU32
  type u64 = x: int | 0 <= x <= MaxU64

  /** The character of one decimal digit. */
  function Digit(d: nat): (c: char)
    requires d < 10
    ensures '0' <= c <= '9'
  {
    "0123456789"[d]
  }

  /** Decimal text of a number, as Rust's `Display` for unsigned integers writes it. */
  function Decimal(n: nat): (s: string)
    ensures |s| >= 1
    ensures forall i :: 0 <= i < |s| ==> '0' <= s[i] <= '9'
  {
    if n < 10 then [Digit(n)] else Decimal(n / 10) + [Digit(n % 10)]
  }
}
