/** Machine types and small wrappers shared by every component. */
module Prelude {

  type Byte = x: int | 0 <= x < 256

  const TWO32 := 0x1_0000_0000
  const TWO31 := 0x8000_0000

  /** Any other `uint32_t`. */
  type U32 = x: int | 0 <= x < TWO32

  datatype Option<+T> = None | Some(value: T)

  /**
   `uint32_t` subtraction of two readings of the free-running millisecond counter. Times are plain
   integers everywhere: the 32-bit counter at time t reads t % 2^32, and this difference depends on
   those readings alone (`ElapsedWraps`).
   */
  function Elapsed(now: int, since: int): U32 {
    (now - since) % TWO32
  }

  lemma ElapsedWraps(now: int, since: int)
    ensures Elapsed(now % TWO32, since % TWO32) == Elapsed(now, since)
  {
    var q, r := now / TWO32, since / TWO32;
    assert now - since == (now % TWO32 - since % TWO32) + (q - r) * TWO32;
  }

  function Min(a: int, b: int): int {
    if a < b then a else b
  }

  /** Decimal text of a small unsigned value, as printf("%u") writes an octet or a prefix length. */
  function Digit(d: int): char
    requires 0 <= d < 10
  {
    '0' + d as char
  }

  function Decimal(n: int): string
    requires 0 <= n < 1000
  {
    if n < 10 then [Digit(n)]
    else if n < 100 then [Digit(n / 10), Digit(n % 10)]
    else [Digit(n / 100), Digit(n / 10 % 10), Digit(n % 10)]
  }

  /** Dotted-quad text of four octets. */
  function DottedQuad(a: Byte, b: Byte, c: Byte, d: Byte): string {
    Decimal(a) + "." + Decimal(b) + "." + Decimal(c) + "." + Decimal(d)
  }
}
