/** Fixed-width numbers of the machine: wrapping 32-bit registers, 64-bit counters,
    and the little-endian layout that memcpy gives a 32-bit word in byte memory. */
module Words {

  const TWO_32: int := 0x1_0000_0000
  const TWO_64: int := 0x1_0000_0000_0000_0000

  type u8 = x: int | 0 <= x < 0x100
  type i8 = x: int | -0x80 <= x < 0x80
  type u32 = x: int | 0 <= x < 0x1_0000_0000
  type i32 = x: int | -0x8000_0000 <= x < 0x8000_0000
  type u64 = x: int | 0 <= x < 0x1_0000_0000_0000_0000

  function Wrap32(x: int): u32 { x % TWO_32 }

  /** Unsigned addition of any amount to a register. */
  function Plus(x: u32, y: int): u32 { Wrap32(x + y) }

  function Wrap64(x: int): u64 { x % TWO_64 }

  lemma Wrap64Add(x: int, y: int)
    ensures Wrap64(Wrap64(x) + y) == Wrap64(x + y)
  {
  }

  lemma Wrap32Add(x: int, y: int)
    ensures Wrap32(Wrap32(x) + y) == Wrap32(x + y)
  {
  }

  lemma PlusPlus(x: u32, y: int, z: int)
    ensures Plus(Plus(x, y), z) == Plus(x, y + z)
  {
    Wrap32Add(x + y, z);
  }

  lemma WrapSmall(x: int)
    requires 0 <= x < TWO_32
    ensures Wrap32(x) == x
  {
  }

  lemma Wrap32Sum(x: int, y: int)
    ensures Wrap32(Wrap32(x) + Wrap32(y)) == Wrap32(x + y)
  {
    Wrap32Add(x, Wrap32(y));
    Wrap32Add(y, x);
  }

  /** The conversion of an int to a signed char. */
  function ToI8(x: int): i8 { (x + 0x80) % 0x100 - 0x80 }

  /** memcpy of a word into memory, lowest byte first. */
  function Encode(v: u32): (b: seq<u8>)
    ensures |b| == 4
  {
    [v % 0x100, v / 0x100 % 0x100, v / 0x100 / 0x100 % 0x100, v / 0x100 / 0x100 / 0x100]
  }

  function Horner(b0: int, b1: int, b2: int, b3: int): int
  {
    b0 + 0x100 * (b1 + 0x100 * (b2 + 0x100 * b3))
  }

  /** memcpy of a word out of memory. */
  function Decode(b: seq<u8>): u32
    requires |b| == 4
  {
    Horner(b[0], b[1], b[2], b[3])
  }

  /** Every 32-bit value survives being written to and read back from memory. */
  lemma DecodeEncode(v: u32)
    ensures Decode(Encode(v)) == v
  {
  }

  lemma LowByte(x: int, y: int)
    requires 0 <= x < 0x100
    ensures (x + 0x100 * y) % 0x100 == x && (x + 0x100 * y) / 0x100 == y
  {
  }

  /** Every four bytes are the layout of the value they decode to. */
  lemma EncodeDecode(b: seq<u8>)
    requires |b| == 4
    ensures Encode(Decode(b)) == b
  {
    LowByte(b[0], Horner(b[1], b[2], b[3], 0));
    LowByte(b[1], Horner(b[2], b[3], 0, 0));
    LowByte(b[2], b[3]);
  }

  function Pow2(n: nat): (r: nat)
    ensures r >= 1
  {
    if n == 0 then 1 else 2 * Pow2(n - 1)
  }
}
