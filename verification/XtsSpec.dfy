// XTS as IEEE Std 1619-2007 defines it, and where the code's data-unit split agrees with it.
module XtsSpec {
  import opened Words

  /** BYTES_PER_XTS_BLOCK (16) bytes as two little-endian 64-bit words. */
  datatype Block = Block(lo: bv64, hi: bv64)

  type BlockFunction = Block -> Block

  /** BLOCKS_PER_XTS_DATA_UNIT */
  const BLOCKS_PER_UNIT: nat := 32

  function XorWord(a: bv64, b: bv64): bv64 { a ^ b }

  function Xor(a: Block, b: Block): Block { Block(XorWord(a.lo, b.lo), XorWord(a.hi, b.hi)) }

  // Words and bytes.  All bytes are kept in words.

  function Shl(w: bv64): bv64 { w << 1 }

  function Reduce(w: bv64): bv64 { w ^ 135 }

  function CarryIn(w: bv64): bv64 { w | 1 }

  /** Byte `k` of a little-endian word. */
  function WordByte(w: bv64, k: nat): bv64
    requires k < 8
  {
    if k == 0 then w & 0xff
    else if k == 1 then (w >> 8) & 0xff
    else if k == 2 then (w >> 16) & 0xff
    else if k == 3 then (w >> 24) & 0xff
    else if k == 4 then (w >> 32) & 0xff
    else if k == 5 then (w >> 40) & 0xff
    else if k == 6 then (w >> 48) & 0xff
    else w >> 56
  }

  /** Byte `k` of a block in memory order. */
  function ByteOf(b: Block, k: nat): bv64
    requires k < 16
  {
    if k < 8 then WordByte(b.lo, k) else WordByte(b.hi, k - 8)
  }

  /** The code's step to the next whitening value: shift left by one bit, carry 135 into the lowest byte. */
  function MulAlpha(t: Block): Block {
    Block(if TopBit(t.hi) then Reduce(Shl(t.lo)) else Shl(t.lo), if TopBit(t.lo) then CarryIn(Shl(t.hi)) else Shl(t.hi))
  }

  /** One step of section 5.2 on a byte: twice the byte modulo 256, and what is carried in. */
  function TwicePlus(b: bv64, carry: bv64): bv64 { ((b << 1) & 0xff) ^ carry }

  /** The bit carried out of a byte. */
  function Carry(b: bv64): bv64 { b >> 7 }

  lemma Shift0(w: bv64)
    ensures (w << 1) & 0xff == ((((w) & 0xff) << 1) & 0xff) ^ (0)
    ensures ((w << 1) ^ 135) & 0xff == ((((w) & 0xff) << 1) & 0xff) ^ 135
    ensures ((w << 1) | 1) & 0xff == ((((w) & 0xff) << 1) & 0xff) ^ 1
  {
  }

  lemma Shift1(w: bv64)
    ensures ((w << 1) >> 8) & 0xff == (((((w) >> 8) & 0xff) << 1) & 0xff) ^ (((w) & 0xff) >> 7)
    ensures (((w << 1) ^ 135) >> 8) & 0xff == ((w << 1) >> 8) & 0xff
    ensures (((w << 1) | 1) >> 8) & 0xff == ((w << 1) >> 8) & 0xff
  {
  }

  lemma Shift2(w: bv64)
    ensures ((w << 1) >> 16) & 0xff == (((((w) >> 16) & 0xff) << 1) & 0xff) ^ ((((w) >> 8) & 0xff) >> 7)
    ensures (((w << 1) ^ 135) >> 16) & 0xff == ((w << 1) >> 16) & 0xff
    ensures (((w << 1) | 1) >> 16) & 0xff == ((w << 1) >> 16) & 0xff
  {
  }

  lemma Shift3(w: bv64)
    ensures ((w << 1) >> 24) & 0xff == (((((w) >> 24) & 0xff) << 1) & 0xff) ^ ((((w) >> 16) & 0xff) >> 7)
    ensures (((w << 1) ^ 135) >> 24) & 0xff == ((w << 1) >> 24) & 0xff
    ensures (((w << 1) | 1) >> 24) & 0xff == ((w << 1) >> 24) & 0xff
  {
  }

  lemma Shift4(w: bv64)
    ensures ((w << 1) >> 32) & 0xff == (((((w) >> 32) & 0xff) << 1) & 0xff) ^ ((((w) >> 24) & 0xff) >> 7)
    ensures (((w << 1) ^ 135) >> 32) & 0xff == ((w << 1) >> 32) & 0xff
    ensures (((w << 1) | 1) >> 32) & 0xff == ((w << 1) >> 32) & 0xff
  {
  }

  lemma Shift5(w: bv64)
    ensures ((w << 1) >> 40) & 0xff == (((((w) >> 40) & 0xff) << 1) & 0xff) ^ ((((w) >> 32) & 0xff) >> 7)
    ensures (((w << 1) ^ 135) >> 40) & 0xff == ((w << 1) >> 40) & 0xff
    ensures (((w << 1) | 1) >> 40) & 0xff == ((w << 1) >> 40) & 0xff
  {
  }

  lemma Shift6(w: bv64)
    ensures ((w << 1) >> 48) & 0xff == (((((w) >> 48) & 0xff) << 1) & 0xff) ^ ((((w) >> 40) & 0xff) >> 7)
    ensures (((w << 1) ^ 135) >> 48) & 0xff == ((w << 1) >> 48) & 0xff
    ensures (((w << 1) | 1) >> 48) & 0xff == ((w << 1) >> 48) & 0xff
  {
  }

  lemma Shift7(w: bv64)
    ensures (w << 1) >> 56 == ((((w) >> 56) << 1) & 0xff) ^ ((((w) >> 48) & 0xff) >> 7)
    ensures ((w << 1) ^ 135) >> 56 == (w << 1) >> 56
    ensures ((w << 1) | 1) >> 56 == (w << 1) >> 56
  {
  }

  /** Byte `k` of a shifted word, with 0, 135 or 1 put in below. */
  ghost predicate ShiftsByte(w: bv64, k: nat)
    requires k < 8
  {
    var c := if k == 0 then 0 else Carry(WordByte(w, k - 1));
    && WordByte(Shl(w), k) == TwicePlus(WordByte(w, k), c)
    && WordByte(Reduce(Shl(w)), k) == TwicePlus(WordByte(w, k), if k == 0 then 135 else c)
    && WordByte(CarryIn(Shl(w)), k) == TwicePlus(WordByte(w, k), if k == 0 then 1 else c)
  }

  lemma Byte0(w: bv64)
    ensures ShiftsByte(w, 0)
  {
    Shift0(w);
  }

  lemma Byte1(w: bv64)
    ensures ShiftsByte(w, 1)
  {
    Shift1(w);
  }

  lemma Byte2(w: bv64)
    ensures ShiftsByte(w, 2)
  {
    Shift2(w);
  }

  lemma Byte3(w: bv64)
    ensures ShiftsByte(w, 3)
  {
    Shift3(w);
  }

  lemma Byte4(w: bv64)
    ensures ShiftsByte(w, 4)
  {
    Shift4(w);
  }

  lemma Byte5(w: bv64)
    ensures ShiftsByte(w, 5)
  {
    Shift5(w);
  }

  lemma Byte6(w: bv64)
    ensures ShiftsByte(w, 6)
  {
    Shift6(w);
  }

  lemma Byte7(w: bv64)
    ensures ShiftsByte(w, 7)
  {
    Shift7(w);
  }

  lemma ShiftBytes(w: bv64, k: nat)
    requires k < 8
    ensures ShiftsByte(w, k)
  {
    hide ShiftsByte;
    if k == 0 { Byte0(w); } else if k == 1 { Byte1(w); } else if k == 2 { Byte2(w); } else if k == 3 { Byte3(w); }
    else if k == 4 { Byte4(w); } else if k == 5 { Byte5(w); } else if k == 6 { Byte6(w); } else { Byte7(w); }
  }

  lemma TopIsCarry(w: bv64)
    ensures Carry(WordByte(w, 7)) == if TopBit(w) then 1 else 0
  {
    TopShift(w);
  }

  lemma TopShift(w: bv64)
    ensures (w >> 56) >> 7 == if w & 0x8000_0000_0000_0000 != 0 then 1 else 0
  {
  }

  /** Section 5.2 of IEEE Std 1619-2007: byte 0 of the product with alpha is twice byte 0 plus 135 times the
      carry out of byte 15; every other byte is twice itself plus the carry out of the byte before. */
  lemma MulAlphaIsStandard(t: Block, k: nat)
    requires k < 16
    ensures ByteOf(MulAlpha(t), k) == TwicePlus(ByteOf(t, k),
      if k > 0 then Carry(ByteOf(t, k - 1)) else if Carry(ByteOf(t, 15)) == 1 then 135 else 0)
  {
    hide WordByte, TwicePlus, Carry, Shl, Reduce, CarryIn, TopBit;
    TopIsCarry(t.lo);
    TopIsCarry(t.hi);
    if k < 8 { ShiftBytes(t.lo, k); } else { ShiftBytes(t.hi, k - 8); }
  }

  /** E(unit) times alpha^j. */
  function Tweak(enc2: BlockFunction, unit: bv64, j: nat): Block {
    if j == 0 then enc2(Block(unit, 0)) else MulAlpha(Tweak(enc2, unit, j - 1))
  }

  /** Section 5.3: whiten, encipher (or decipher), whiten. */
  function XtsBlock(f: BlockFunction, enc2: BlockFunction, unit: bv64, j: nat, p: Block): Block {
    Xor(f(Xor(p, Tweak(enc2, unit, j))), Tweak(enc2, unit, j))
  }

  /** Where block `t` of a buffer lies that starts at block `start` of its first data unit: how many units
      on, and which block of that unit. */
  function UnitOf(start: nat, t: nat): nat { (start + t) / BLOCKS_PER_UNIT }

  function IndexOf(start: nat, t: nat): nat { (start + t) % BLOCKS_PER_UNIT }

  /** Where the code puts it: fewer than 32 blocks are never split (lines 98 to 101). */
  function CodeUnit(start: nat, count: nat, t: nat): nat {
    if count < BLOCKS_PER_UNIT then 0 else UnitOf(start, t)
  }

  function CodeIndex(start: nat, count: nat, t: nat): nat {
    if count < BLOCKS_PER_UNIT then start + t else IndexOf(start, t)
  }

  /** The runs the code places right: from the first block of a unit, within one unit, or a unit long. */
  predicate Splits(start: nat, count: nat) {
    start == 0 || start + count <= BLOCKS_PER_UNIT || count >= BLOCKS_PER_UNIT
  }

  /** Exactly for those is every block treated at its own place. */
  lemma SplitsExactly(start: nat, count: nat)
    requires start < BLOCKS_PER_UNIT
    ensures Splits(start, count) <==>
      forall t :: 0 <= t < count ==>
        CodeUnit(start, count, t) == UnitOf(start, t) && CodeIndex(start, count, t) == IndexOf(start, t)
  {
    if !Splits(start, count) {
      assert UnitOf(start, 32 - start) == 1;
    }
  }

  /** A block cipher: the halves change places. */
  function Swapped(b: Block): Block { Block(b.hi, b.lo) }

  lemma SwappedDiffers(p: Block)
    ensures Xor(Swapped(Xor(p, Block(0, 0))), Block(0, 0)) != Xor(Swapped(Xor(p, Block(1, 0))), Block(1, 0))
  {
  }

  /** For any other run the whitening values differ: with the identity as tweak cipher and unit 0, the
      first block of the next unit gets 0 where the standard has 1; and with a cipher that swaps halves every
      plaintext of that block is encrypted wrong. */
  lemma StraddleDiffers(start: nat, count: nat, p: Block) returns (t: nat)
    requires start < BLOCKS_PER_UNIT && !Splits(start, count)
    ensures t < count
    ensures Tweak((b: Block) => b, 0, CodeIndex(start, count, t)) == Block(0, 0)
    ensures Tweak((b: Block) => b, Advance(0, UnitOf(start, t)), IndexOf(start, t)) == Block(1, 0)
    ensures XtsBlock(Swapped, (b: Block) => b, 0, CodeIndex(start, count, t), p)
      != XtsBlock(Swapped, (b: Block) => b, Advance(0, UnitOf(start, t)), IndexOf(start, t), p)
  {
    hide Xor;
    t := 32 - start;
    ZeroTweak(32);
    assert Advance(0, 1) == 1;
    SwappedDiffers(p);
  }

  lemma {:induction false} ZeroTweak(j: nat)
    ensures Tweak((b: Block) => b, 0, j) == Block(0, 0)
  {
    if j > 0 {
      ZeroTweak(j - 1);
    }
  }

  /** Decryption undoes encryption at the same place. */
  lemma XtsInverts(enc: BlockFunction, dec: BlockFunction, enc2: BlockFunction, unit: bv64, j: nat, p: Block)
    requires forall b :: dec(enc(b)) == b
    ensures XtsBlock(dec, enc2, unit, j, XtsBlock(enc, enc2, unit, j, p)) == p
  {
    var t := Tweak(enc2, unit, j);
    XorTwice(enc(Xor(p, t)), t);
    XorTwice(p, t);
  }

  lemma XorWordTwice(a: bv64, b: bv64)
    ensures XorWord(XorWord(a, b), b) == a
  {
  }

  lemma XorTwice(a: Block, b: Block)
    ensures Xor(Xor(a, b), b) == a
  {
    hide XorWord;
    XorWordTwice(a.lo, b.lo);
    XorWordTwice(a.hi, b.hi);
  }
}
