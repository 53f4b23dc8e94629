// Fixed-width integers of the C source, their byte encodings, and what the other modules share.

module Bytes {

  type byte = x: int | 0 <= x < 0x100
  type u16 = x: int | 0 <= x < 0x1_0000
  type u32 = x: int | 0 <= x < 0x1_0000_0000

  /** The mmd of the chip's global registers, the mailbox among them. */
  const MMD_GLOBAL: byte := 0x1e

  datatype Option<+T> = None | Some(value: T)

  // Little-endian, the byte order of the packed structs on the wire and of the mailbox words.

  function Le16(v: u16): (b: seq<byte>)
    ensures |b| == 2
  {
    [v % 256, v / 256]
  }

  function Get16(b: seq<byte>, i: nat): u16
    requires i + 2 <= |b|
  {
    (b[i] as int) + 256 * (b[i + 1] as int)
  }

  function Le32(v: u32): (b: seq<byte>)
    ensures |b| == 4
  {
    [v % 256, v / 256 % 256, v / 65536 % 256, v / 16777216]
  }

  function Get32(b: seq<byte>, i: nat): u32
    requires i + 4 <= |b|
  {
    (b[i] as int) + 256 * (b[i + 1] as int) + 65536 * (b[i + 2] as int) + 16777216 * (b[i + 3] as int)
  }

  lemma Le32RoundTrip(v: u32)
    ensures Get32(Le32(v), 0) == v
  {
    assert v / 65536 == v / 256 / 256 && v / 16777216 == v / 65536 / 256;
  }

  lemma Get32RoundTrip(b: seq<byte>, i: nat)
    requires i + 4 <= |b|
    ensures Le32(Get32(b, i)) == b[i..i + 4]
  {
    var v := Get32(b, i);
    var v1: int := (b[i + 1] as int) + 256 * (b[i + 2] as int) + 65536 * (b[i + 3] as int);
    var v2: int := (b[i + 2] as int) + 256 * (b[i + 3] as int);
    assert v == (b[i] as int) + 256 * v1 && v1 == (b[i + 1] as int) + 256 * v2;
    assert v / 256 == v1 && v1 / 256 == v2;
    assert v / 65536 == v / 256 / 256 && v / 16777216 == v / 65536 / 256;
  }

  function Min(a: int, b: int): int {
    if a <= b then a else b
  }

  function Pow2(n: nat): (p: nat)
    ensures p > 0
  {
    if n == 0 then 1 else 2 * Pow2(n - 1)
  }

  lemma Quotient(n: nat, d: nat, q: nat, r: nat)
    requires d > 0 && r < d && n == d * q + r
    ensures n / d == q && n % d == r
  {
    var q', r' := n / d, n % d;
    assert n == d * q' + r';
    if q < q' {
      MulStep(d, q, q');
    } else if q' < q {
      MulStep(d, q', q);
    }
  }

  lemma {:induction false} MulStep(d: nat, a: nat, b: nat)
    requires a < b
    ensures d * b >= d * a + d
    decreases b
  {
    assert d * b == d * (b - 1) + d;
    if a < b - 1 { MulStep(d, a, b - 1); }
  }
}
