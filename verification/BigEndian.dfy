// Machine words and their bytes as numbers.
module BigEndian {
  lemma FourBytes(a: bv8, b: bv8, c: bv8, d: bv8)
    ensures (((a as bv32) << 24) | ((b as bv32) << 16) | ((c as bv32) << 8) | (d as bv32)) as int ==
      0x100_0000 * (a as int) + 0x1_0000 * (b as int) + 0x100 * (c as int) + d as int
  {
  }

  lemma Rejoined(w: bv32)
    ensures (w >> 24) <= 0xff && ((w >> 16) & 0xff) <= 0xff && ((w >> 8) & 0xff) <= 0xff && (w & 0xff) <= 0xff
    ensures ((((w >> 24) as bv8) as bv32) << 24) | (((((w >> 16) & 0xff) as bv8) as bv32) << 16)
      | (((((w >> 8) & 0xff) as bv8) as bv32) << 8) | (((w & 0xff) as bv8) as bv32) == w
  {
  }

  /** The digits of a word to the base 256. */
  lemma Digits(w: bv32)
    ensures (w >> 24) <= 0xff && ((w >> 16) & 0xff) <= 0xff && ((w >> 8) & 0xff) <= 0xff && (w & 0xff) <= 0xff
    ensures 0x100_0000 * (((w >> 24) as bv8) as int) + 0x1_0000 * ((((w >> 16) & 0xff) as bv8) as int)
      + 0x100 * ((((w >> 8) & 0xff) as bv8) as int) + ((w & 0xff) as bv8) as int == w as int
  {
    Rejoined(w);
    FourBytes((w >> 24) as bv8, ((w >> 16) & 0xff) as bv8, ((w >> 8) & 0xff) as bv8, (w & 0xff) as bv8);
  }

  lemma EightBytes(a: bv8, b: bv8, c: bv8, d: bv8, e: bv8, f: bv8, g: bv8, h: bv8, w: bv64)
    requires w == (a as bv64 << 56) | (b as bv64 << 48) | (c as bv64 << 40) | (d as bv64 << 32)
      | (e as bv64 << 24) | (f as bv64 << 16) | (g as bv64 << 8) | h as bv64
    ensures w as int ==
      0x100_0000_0000_0000 * (a as int) + 0x1_0000_0000_0000 * (b as int) + 0x100_0000_0000 * (c as int)
      + 0x1_0000_0000 * (d as int) + 0x100_0000 * (e as int) + 0x1_0000 * (f as int) + 0x100 * (g as int) + h as int
  {
  }
}
