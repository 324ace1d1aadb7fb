// Fixed-width unsigned arithmetic, written out on unbounded integers.
module Words {
  const WORD32 := 0x1_0000_0000

  /** The value an unsigned 32-bit variable holds after being assigned x. */
  function U32(x: int): (r: nat) {
    if 0 <= x < 0x1_0000_0000 then x else x % 0x1_0000_0000
  }

  /** The value an unsigned 16-bit variable holds after being assigned x. */
  function U16(x: int): (r: nat) {
    if 0 <= x < 0x1_0000 then x else x % 0x1_0000
  }

  /** U32 and U16 wrap around at the word's size. */
  lemma WordsWrap(x: int)
    ensures 0 <= U32(x) < 0x1_0000_0000 && exists m: int :: x == m * 0x1_0000_0000 + U32(x)
    ensures 0 <= U16(x) < 0x1_0000 && exists m: int :: x == m * 0x1_0000 + U16(x)
  {
    assert x == (x / 0x1_0000_0000) * 0x1_0000_0000 + U32(x);
    assert x == (x / 0x1_0000) * 0x1_0000 + U16(x);
  }

  /** The value a signed 32-bit variable holds after being assigned x. */
  function I32(x: int): (r: int) {
    if U32(x) < 0x8000_0000 then U32(x) else U32(x) - 0x1_0000_0000
  }
}
