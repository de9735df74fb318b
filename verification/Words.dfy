/** Fixed-width machine integers, written out on unbounded ones. */
module Words {
  const TWO32 := 0x1_0000_0000

  newtype Byte = x: int | 0 <= x < 256

  type Word = x: int | 0 <= x < TWO32

  function U8(x: int): nat { x % 0x100 }

  function U16(x: int): nat { x % 0x1_0000 }

  function U32(x: int): Word { x % TWO32 }

  /** Reading an unsigned byte as `int8_t`. */
  function I8(x: int): int {
    var u := U8(x);
    if u < 0x80 then u else u - 0x100
  }

  /** Reading an unsigned 32-bit word as `int32_t`. */
  function I32(x: int): int {
    var u := U32(x);
    if u < 0x8000_0000 then u else u - TWO32
  }

  lemma U32Shift(x: int, k: int)
    ensures U32(x + k * TWO32) == U32(x)
  {
  }

  /** Only the value modulo 2^32 of a summand matters. */
  lemma U32Add(x: int, y: int)
    ensures U32(U32(x) + y) == U32(x + y)
  {
    var k := x / TWO32;
    assert x == U32(x) + k * TWO32;
    U32Shift(U32(x) + y, k);
  }

  lemma U32Congruent(x: int, y: int, z: int)
    requires U32(x) == U32(y)
    ensures U32(x + z) == U32(y + z)
  {
    U32Add(x, z);
    U32Add(y, z);
  }

  /** A two's complement reading is the same modulo 2^32. */
  lemma I32Congruent(x: int)
    ensures U32(I32(x)) == U32(x)
  {
    U32Shift(U32(x), -1);
  }
}
