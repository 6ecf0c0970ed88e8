// Machine words shared by the other modules.
module Words {
  import BigEndian

  /** A data unit: ENCRYPTION_DATA_UNIT_SIZE (512) bytes seen as 64 little-endian 64-bit words. */
  type Unit = seq<bv64>

  const WORDS_PER_UNIT: nat := 64

  /** The 64-bit unit number `n` places after `u`; wraps modulo 2^64 exactly as `uint64` addition does. */
  function Advance(u: bv64, n: nat): bv64 {
    if n == 0 then u else Advance(u, n - 1) + 1
  }

  /** A 64-bit word from its low and high halves. */
  function Join(low: bv32, high: bv32): bv64 { ((high as bv64) << 32) | (low as bv64) }

  function Low(x: bv64): bv32 { (x & 0xffff_ffff) as bv32 }

  function High(x: bv64): bv32 { (x >> 32) as bv32 }

  function TopBit(w: bv64): bool { w & 0x8000_0000_0000_0000 != 0 }

  /** A 64-bit number from its bytes, the highest first. */
  function Word(a: bv8, b: bv8, c: bv8, d: bv8, e: bv8, f: bv8, g: bv8, h: bv8): bv64 {
    (a as bv64 << 56) | (b as bv64 << 48) | (c as bv64 << 40) | (d as bv64 << 32)
    | (e as bv64 << 24) | (f as bv64 << 16) | (g as bv64 << 8) | h as bv64
  }

  /** Its value: the bytes are its digits to the base 256. */
  lemma WordNumber(a: bv8, b: bv8, c: bv8, d: bv8, e: bv8, f: bv8, g: bv8, h: bv8)
    ensures Word(a, b, c, d, e, f, g, h) as int ==
      0x100_0000_0000_0000 * (a as int) + 0x1_0000_0000_0000 * (b as int) + 0x100_0000_0000 * (c as int)
      + 0x1_0000_0000 * (d as int) + 0x100_0000 * (e as int) + 0x1_0000 * (f as int) + 0x100 * (g as int) + h as int
  {
    BigEndian.EightBytes(a, b, c, d, e, f, g, h, Word(a, b, c, d, e, f, g, h));
  }

  lemma AdvanceOne(u: bv64)
    ensures Advance(u, 1) == u + 1
  {
    assert Advance(u, 0) == u;
  }

  lemma {:induction false} AdvanceAdd(u: bv64, m: nat, n: nat)
    ensures Advance(Advance(u, m), n) == Advance(u, m + n)
  {
    if n > 0 {
      AdvanceAdd(u, m, n - 1);
    }
  }
}
