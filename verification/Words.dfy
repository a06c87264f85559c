/** Fixed-width unsigned words of the C code, and the facts about wrap-around the
    protocol relies on. Words are integers; every wrap is written out as U16 or U32. */
module Words {

  type byte = x: int | 0 <= x < 0x100
  type u16 = x: int | 0 <= x < 0x1_0000
  type u32 = x: int | 0 <= x < 0x1_0000_0000

  /** Conversion to uint16_t. */
  function U16(x: int): u16 {
    x % 0x1_0000
  }

  /** Conversion to uint32_t. */
  function U32(x: int): u32 {
    x % 0x1_0000_0000
  }

  lemma U16Shift(x: int, laps: int)
    ensures U16(x + 0x1_0000 * laps) == U16(x)
  {
  }

  lemma U32Shift(x: int, laps: int)
    ensures U32(x + 0x1_0000_0000 * laps) == U32(x)
  {
  }

  lemma U16OfSum(a: int, b: int)
    ensures U16(U16(a) + b) == U16(a + b)
  {
    U16Shift(U16(a) + b, a / 0x1_0000);
  }

  lemma U16OfDifference(a: int, b: int)
    ensures U16(b - U16(a)) == U16(b - a)
  {
    U16Shift(b - a, a / 0x1_0000);
  }

  lemma U32OfSum(a: int, b: int)
    ensures U32(U32(a) + b) == U32(a + b)
  {
    U32Shift(U32(a) + b, a / 0x1_0000_0000);
  }

  lemma U16OfU32(a: int)
    ensures U16(U32(a)) == U16(a)
  {
    U16Shift(U32(a), a / 0x1_0000_0000 * 0x1_0000);
  }

  lemma U16OfU32Difference(a: int, b: int)
    ensures U16(U32(a) - U32(b)) == U16(a - b)
  {
    U16Shift(U32(a) - U32(b), (a / 0x1_0000_0000 - b / 0x1_0000_0000) * 0x1_0000);
  }

  /** Two positions less than one 16-bit lap apart are equal when their low halves are. */
  lemma U16Near(a: int, b: int)
    requires -0x1_0000 < a - b < 0x1_0000
    ensures U16(a) == U16(b) <==> a == b
  {
  }

  lemma U32Near(a: int, b: int)
    requires -0x1_0000_0000 < a - b < 0x1_0000_0000
    ensures U32(a) == U32(b) <==> a == b
  {
  }

  /** A 16-bit difference of two positions is their true distance when that is under a lap. */
  lemma U16Distance(a: int, b: int)
    requires 0 <= a - b < 0x1_0000
    ensures U16(U16(a) - U16(b)) == a - b
  {
    U16OfSum(a, 0 - U16(b) as int);
    U16OfDifference(b, a);
  }
}
