/** Fixed-width integers and their big-endian form on the wire. */
module Bytes {

  datatype Option<+T> = None | Some(value: T)

  type Byte = x: int | 0 <= x < 0x100
  type U32 = x: int | 0 <= x < 0x1_0000_0000
  type I32 = x: int | -0x8000_0000 <= x < 0x8000_0000

  type Bytes = seq<Byte>

  const I32_MIN: I32 := -0x8000_0000
  const I32_MAX: I32 := 0x7fff_ffff
  const U32_SPAN := 0x1_0000_0000

  /** A length cast to 32 bits keeps its low 32 bits. */
  function AsU32(n: nat): (r: U32)
    ensures n < U32_SPAN ==> r == n
  {
    n % 0x1_0000_0000
  }

  /** The i-th byte of n, most significant first. */
  function Digit(n: U32, i: nat): Byte {
    var n1: int := n / 0x100;
    var n2: int := n1 / 0x100;
    if i == 0 then n2 / 0x100
    else if i == 1 then n2 % 0x100
    else if i == 2 then n1 % 0x100
    else n % 0x100
  }

  function PutU32(n: U32): (b: Bytes)
    ensures |b| == 4
  {
    seq(4, i requires 0 <= i < 4 => Digit(n, i))
  }

  function GetU32(b: Bytes): U32
    requires |b| == 4
  {
    var b0: int, b1: int, b2: int, b3: int := b[0], b[1], b[2], b[3];
    ((b0 * 0x100 + b1) * 0x100 + b2) * 0x100 + b3
  }

  lemma U32RoundTrip(n: U32)
    ensures GetU32(PutU32(n)) == n
  {
  }

  lemma U32Onto(b: Bytes)
    requires |b| == 4
    ensures PutU32(GetU32(b)) == b
  {
    var b0: int, b1: int, b2: int, b3: int := b[0], b[1], b[2], b[3];
    var n: int := GetU32(b);
    assert n / 0x100 == (b0 * 0x100 + b1) * 0x100 + b2 && n % 0x100 == b3;
    assert n / 0x100 / 0x100 == b0 * 0x100 + b1 && n / 0x100 % 0x100 == b2;
    assert n / 0x100 / 0x100 / 0x100 == b0 && n / 0x100 / 0x100 % 0x100 == b1;
  }

  /** The first byte in which two numbers differ decides: the most significant comes first. */
  lemma FirstByteDecides(a: Bytes, b: Bytes, k: nat)
    requires |a| == 4 && |b| == 4 && k < 4 && a[..k] == b[..k] && a[k] < b[k]
    ensures GetU32(a) < GetU32(b)
  {
    assert k > 0 ==> a[0] == a[..k][0] == b[0];
    assert k > 1 ==> a[1] == a[..k][1] == b[1];
    assert k > 2 ==> a[2] == a[..k][2] == b[2];
  }

  /** Two's complement. */
  function PutI32(n: I32): (b: Bytes)
    ensures |b| == 4
  {
    PutU32(if n < 0 then n + U32_SPAN else n)
  }

  function GetI32(b: Bytes): I32
    requires |b| == 4
  {
    var n := GetU32(b);
    if n > I32_MAX then n - U32_SPAN else n
  }

  lemma I32RoundTrip(n: I32)
    ensures GetI32(PutI32(n)) == n
  {
    U32RoundTrip(if n < 0 then n + U32_SPAN else n);
  }

  lemma I32Onto(b: Bytes)
    requires |b| == 4
    ensures PutI32(GetI32(b)) == b
  {
    U32Onto(b);
  }
}
