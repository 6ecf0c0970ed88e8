// The two fields the tables are used for: GF(2^128), elements as two big-endian 64-bit halves, and GF(2^64).
module GfInstances {
  import opened GfField
  import opened Words

  // ----- Words -----

  function Add(a: bv64, b: bv64): bv64 { a ^ b }

  /** Shift by one with a bit coming in. */
  function Shl1(v: bv64, c: bool): bv64 { (v << 1) | (if c then 1 else 0) }

  function Shr1(v: bv64, c: bool): bv64 { (v >> 1) | (if c then 0x8000_0000_0000_0000 else 0) }

  function LowBit(v: bv64): bool { v & 1 != 0 }

  function IfBit(v: bv64, mask: bv64, k: bv64): bv64 { if v & mask != 0 then k else 0 }

  /** All 64 bits in reverse order. */
  function Mirror(v: bv64): bv64 {
    var a := ((v & 0x5555_5555_5555_5555) << 1) | ((v >> 1) & 0x5555_5555_5555_5555);
    var b := ((a & 0x3333_3333_3333_3333) << 2) | ((a >> 2) & 0x3333_3333_3333_3333);
    var c := ((b & 0x0f0f_0f0f_0f0f_0f0f) << 4) | ((b >> 4) & 0x0f0f_0f0f_0f0f_0f0f);
    var d := ((c & 0x00ff_00ff_00ff_00ff) << 8) | ((c >> 8) & 0x00ff_00ff_00ff_00ff);
    var e := ((d & 0x0000_ffff_0000_ffff) << 16) | ((d >> 16) & 0x0000_ffff_0000_ffff);
    (e << 32) | (e >> 32)
  }

  lemma AddCommutes(a: bv64, b: bv64)
    ensures Add(a, b) == Add(b, a)
  {
  }

  lemma AddAssociates(a: bv64, b: bv64, c: bv64)
    ensures Add(Add(a, b), c) == Add(a, Add(b, c))
  {
  }

  lemma AddZero(a: bv64)
    ensures Add(a, 0) == a
  {
  }

  lemma MirrorAdd(v: bv64, w: bv64)
    ensures Mirror(Add(v, w)) == Add(Mirror(v), Mirror(w))
  {
  }

  lemma MirrorTwice(v: bv64)
    ensures Mirror(Mirror(v)) == v
  {
  }

  lemma MirrorShift(v: bv64, c: bool)
    ensures Mirror(Shr1(v, c)) == Shl1(Mirror(v), c)
  {
  }

  lemma MirrorBits(v: bv64)
    ensures LowBit(v) == TopBit(Mirror(v)) && TopBit(v) == LowBit(Mirror(v))
  {
  }

  lemma MirrorPolys()
    ensures Mirror(0xe100_0000_0000_0000) == 0x87 && Mirror(0xd800_0000_0000_0000) == 0x1b && Mirror(0) == 0
  {
  }

  // ----- GF(2^64) with x^64 + x^4 + x^3 + x + 1 -----

  /** shl64, and 0x1b into the last byte when a bit was shifted out. */
  function MulX64(v: bv64): bv64 { Add(Shl1(v, false), if TopBit(v) then 0x1b else 0) }

  /** mul_x64, with gf_poly64 */
  function MirrorX64(v: bv64): bv64 { Add(Shr1(v, false), if LowBit(v) then 0xd800_0000_0000_0000 else 0) }

  function MirrorX64Two(v: bv64): bv64 {
    (v >> 2)
    ^ IfBit(v, 0x2, 0xd800_0000_0000_0000) ^ IfBit(v, 0x1, 0x6c00_0000_0000_0000)
  }

  function MirrorX64Four(v: bv64): bv64 {
    (v >> 4)
    ^ IfBit(v, 0x8, 0xd800_0000_0000_0000) ^ IfBit(v, 0x4, 0x6c00_0000_0000_0000)
    ^ IfBit(v, 0x2, 0x3600_0000_0000_0000) ^ IfBit(v, 0x1, 0x1b00_0000_0000_0000)
  }

  /** mul_lex8_64: one byte at a time, with the table gft_le64 (macro xp64). */
  function MirrorX64Eight(v: bv64): bv64 {
    (v >> 8)
    ^ IfBit(v, 0x80, 0xd800_0000_0000_0000) ^ IfBit(v, 0x40, 0x6c00_0000_0000_0000)
    ^ IfBit(v, 0x20, 0x3600_0000_0000_0000) ^ IfBit(v, 0x10, 0x1b00_0000_0000_0000)
    ^ IfBit(v, 0x8, 0x0d80_0000_0000_0000) ^ IfBit(v, 0x4, 0x06c0_0000_0000_0000)
    ^ IfBit(v, 0x2, 0x0360_0000_0000_0000) ^ IfBit(v, 0x1, 0x01b0_0000_0000_0000)
  }

  lemma TwoSteps64(v: bv64)
    ensures MirrorX64Two(v) == MirrorX64(MirrorX64(v))
  {
  }

  lemma FourSteps64(v: bv64)
    ensures MirrorX64Four(v) == MirrorX64Two(MirrorX64Two(v))
  {
  }

  lemma EightSteps64(v: bv64)
    ensures MirrorX64Eight(v) == MirrorX64Four(MirrorX64Four(v))
  {
  }

  const Field64: Field<bv64> := Field(0, Add, MulX64, Mirror, MirrorX64, MirrorX64Eight)

  lemma MirrorMulX64(v: bv64)
    ensures Mirror(MirrorX64(v)) == MulX64(Mirror(v))
  {
    hide Mirror, Add, Shl1, Shr1, TopBit, LowBit;
    MirrorShift(v, false);
    MirrorBits(v);
    MirrorPolys();
    MirrorAdd(Shr1(v, false), if LowBit(v) then 0xd800_0000_0000_0000 else 0);
  }

  lemma Power8<E>(f: Field<E>, a: E)
    ensures PowerM(f, a, 8) ==
      f.mirrorX(f.mirrorX(f.mirrorX(f.mirrorX(f.mirrorX(f.mirrorX(f.mirrorX(f.mirrorX(a))))))))
  {
    assert PowerM(f, a, 0) == a;
    assert PowerM(f, a, 1) == f.mirrorX(a);
    assert PowerM(f, a, 2) == f.mirrorX(f.mirrorX(a));
    assert PowerM(f, a, 4) == f.mirrorX(f.mirrorX(PowerM(f, a, 2)));
    assert PowerM(f, a, 6) == f.mirrorX(f.mirrorX(PowerM(f, a, 4)));
  }

  /** The byte table is eight single steps. */
  lemma ByteTable64(v: bv64)
    ensures MirrorX64Eight(v) == PowerM(Field64, v, 8)
  {
    hide MirrorX64, MirrorX64Two, MirrorX64Four, MirrorX64Eight;
    EightSteps64(v);
    FourSteps64(v);
    FourSteps64(MirrorX64Four(v));
    TwoSteps64(v);
    TwoSteps64(MirrorX64Two(v));
    TwoSteps64(MirrorX64Four(v));
    TwoSteps64(MirrorX64Two(MirrorX64Four(v)));
    Power8(Field64, v);
  }

  lemma Laws64()
    ensures Laws(Field64)
  {
    hide Mirror, MulX64, MirrorX64, MirrorX64Eight, Add, PowerM;
    var f := Field64;
    forall a, b, c
      ensures AddLaw(f, a, b, c)
    {
      AddCommutes(a, b);
      AddAssociates(a, b, c);
      AddZero(a);
    }
    forall a, b
      ensures MirrorLaw(f, a, b)
    {
      MirrorAdd(a, b);
      MirrorTwice(a);
      MirrorMulX64(a);
      ByteTable64(a);
    }
    MirrorPolys();
  }

  // ----- GF(2^128) with x^128 + x^7 + x^2 + x + 1 -----

  /** 16 bytes, most significant first, in two halves. */
  datatype Elem = Elem(hi: bv64, lo: bv64)

  function Add128(a: Elem, b: Elem): Elem { Elem(Add(a.hi, b.hi), Add(a.lo, b.lo)) }

  /** shl128, and 0x87 into the last byte when a bit was shifted out (lines 784 to 792). */
  function MulX128(v: Elem): Elem {
    Elem(Shl1(v.hi, TopBit(v.lo)), Add(Shl1(v.lo, false), if TopBit(v.hi) then 0x87 else 0))
  }

  /** MirrorBits128 */
  function Mirror128(v: Elem): Elem { Elem(Mirror(v.lo), Mirror(v.hi)) }

  /** mul_x, with gf_poly */
  function MirrorX128(v: Elem): Elem {
    Elem(Add(Shr1(v.hi, false), if LowBit(v.lo) then 0xe100_0000_0000_0000 else 0), Shr1(v.lo, LowBit(v.hi)))
  }

  /** The low half shifted by `n` places, bits of the high half coming in. */
  function ShiftIn2(hi: bv64, lo: bv64): bv64 { (lo >> 2) | (hi << 62) }

  function ShiftIn4(hi: bv64, lo: bv64): bv64 { (lo >> 4) | (hi << 60) }

  function ShiftIn8(hi: bv64, lo: bv64): bv64 { (lo >> 8) | (hi << 56) }

  function High2(hi: bv64, lo: bv64): bv64 {
    (hi >> 2)
    ^ IfBit(lo, 0x2, 0xe100_0000_0000_0000) ^ IfBit(lo, 0x1, 0x7080_0000_0000_0000)
  }

  function High4(hi: bv64, lo: bv64): bv64 {
    (hi >> 4)
    ^ IfBit(lo, 0x8, 0xe100_0000_0000_0000) ^ IfBit(lo, 0x4, 0x7080_0000_0000_0000)
    ^ IfBit(lo, 0x2, 0x3840_0000_0000_0000) ^ IfBit(lo, 0x1, 0x1c20_0000_0000_0000)
  }

  /** The high half, with the reduction of the bits that leave the low one: the table gft_le (macro xp). */
  function High8(hi: bv64, lo: bv64): bv64 {
    (hi >> 8)
    ^ IfBit(lo, 0x80, 0xe100_0000_0000_0000) ^ IfBit(lo, 0x40, 0x7080_0000_0000_0000)
    ^ IfBit(lo, 0x20, 0x3840_0000_0000_0000) ^ IfBit(lo, 0x10, 0x1c20_0000_0000_0000)
    ^ IfBit(lo, 0x8, 0x0e10_0000_0000_0000) ^ IfBit(lo, 0x4, 0x0708_0000_0000_0000)
    ^ IfBit(lo, 0x2, 0x0384_0000_0000_0000) ^ IfBit(lo, 0x1, 0x01c2_0000_0000_0000)
  }

  /** mul_lex8: one byte at a time. */
  function MirrorX128Eight(v: Elem): Elem { Elem(High8(v.hi, v.lo), ShiftIn8(v.hi, v.lo)) }

  function MirrorX128Four(v: Elem): Elem { Elem(High4(v.hi, v.lo), ShiftIn4(v.hi, v.lo)) }

  function MirrorX128Two(v: Elem): Elem { Elem(High2(v.hi, v.lo), ShiftIn2(v.hi, v.lo)) }

  function High1(hi: bv64, lo: bv64): bv64 { Add(Shr1(hi, false), if LowBit(lo) then 0xe100_0000_0000_0000 else 0) }

  function ShiftIn1(hi: bv64, lo: bv64): bv64 { Shr1(lo, LowBit(hi)) }

  lemma TwoHighs(hi: bv64, lo: bv64)
    ensures High2(hi, lo) == High1(High1(hi, lo), ShiftIn1(hi, lo))
  {
  }

  lemma TwoLows(hi: bv64, lo: bv64)
    ensures ShiftIn2(hi, lo) == ShiftIn1(High1(hi, lo), ShiftIn1(hi, lo))
  {
    hide High1, ShiftIn2, Shr1;
    NextBit(hi, lo);
    TwoShifts(hi, lo);
  }

  lemma NextBit(hi: bv64, lo: bv64)
    ensures LowBit(High1(hi, lo)) == (hi & 2 != 0)
  {
  }

  lemma TwoShifts(hi: bv64, lo: bv64)
    ensures ShiftIn2(hi, lo) == Shr1(Shr1(lo, LowBit(hi)), hi & 2 != 0)
  {
    if hi & 1 == 0 {
      if hi & 2 == 0 { Shifts00(hi, lo); } else { Shifts10(hi, lo); }
    } else {
      if hi & 2 == 0 { Shifts01(hi, lo); } else { Shifts11(hi, lo); }
    }
  }

  lemma Shifts00(hi: bv64, lo: bv64)
    requires hi & 1 == 0 && hi & 2 == 0
    ensures (lo >> 2) | (hi << 62) == (((lo >> 1) | 0) >> 1) | 0
  {
  }

  lemma Shifts01(hi: bv64, lo: bv64)
    requires hi & 1 != 0 && hi & 2 == 0
    ensures (lo >> 2) | (hi << 62) == (((lo >> 1) | 0x8000_0000_0000_0000) >> 1) | 0
  {
  }

  lemma Shifts10(hi: bv64, lo: bv64)
    requires hi & 1 == 0 && hi & 2 != 0
    ensures (lo >> 2) | (hi << 62) == (((lo >> 1) | 0) >> 1) | 0x8000_0000_0000_0000
  {
  }

  lemma Shifts11(hi: bv64, lo: bv64)
    requires hi & 1 != 0 && hi & 2 != 0
    ensures (lo >> 2) | (hi << 62) == (((lo >> 1) | 0x8000_0000_0000_0000) >> 1) | 0x8000_0000_0000_0000
  {
  }

  lemma FourHighs(hi: bv64, lo: bv64)
    ensures High4(hi, lo) == High2(High2(hi, lo), ShiftIn2(hi, lo))
  {
  }

  lemma FourLows(hi: bv64, lo: bv64)
    ensures ShiftIn4(hi, lo) == ShiftIn2(High2(hi, lo), ShiftIn2(hi, lo))
  {
  }

  lemma EightHighs(hi: bv64, lo: bv64)
    ensures High8(hi, lo) == High4(High4(hi, lo), ShiftIn4(hi, lo))
  {
  }

  lemma EightLows(hi: bv64, lo: bv64)
    ensures ShiftIn8(hi, lo) == ShiftIn4(High4(hi, lo), ShiftIn4(hi, lo))
  {
  }

  lemma TwoSteps128(v: Elem)
    ensures MirrorX128Two(v) == MirrorX128(MirrorX128(v))
  {
    hide High2, ShiftIn2, Shr1, Add, LowBit;
    TwoHighs(v.hi, v.lo);
    TwoLows(v.hi, v.lo);
  }

  lemma FourSteps128(v: Elem)
    ensures MirrorX128Four(v) == MirrorX128Two(MirrorX128Two(v))
  {
    hide High2, ShiftIn2, High4, ShiftIn4;
    FourHighs(v.hi, v.lo);
    FourLows(v.hi, v.lo);
  }

  lemma EightSteps128(v: Elem)
    ensures MirrorX128Eight(v) == MirrorX128Four(MirrorX128Four(v))
  {
    hide High8, ShiftIn8, High4, ShiftIn4;
    EightHighs(v.hi, v.lo);
    EightLows(v.hi, v.lo);
  }

  const Field128: Field<Elem> := Field(Elem(0, 0), Add128, MulX128, Mirror128, MirrorX128, MirrorX128Eight)

  lemma ByteTable128(v: Elem)
    ensures MirrorX128Eight(v) == PowerM(Field128, v, 8)
  {
    hide MirrorX128, MirrorX128Two, MirrorX128Four, MirrorX128Eight;
    EightSteps128(v);
    FourSteps128(v);
    FourSteps128(MirrorX128Four(v));
    TwoSteps128(v);
    TwoSteps128(MirrorX128Two(v));
    TwoSteps128(MirrorX128Four(v));
    TwoSteps128(MirrorX128Two(MirrorX128Four(v)));
    Power8(Field128, v);
  }

  lemma MirrorMulX128(v: Elem)
    ensures Mirror128(MirrorX128(v)) == MulX128(Mirror128(v))
  {
    hide Mirror, Add, Shl1, Shr1, TopBit, LowBit;
    MirrorShift(v.hi, false);
    MirrorShift(v.lo, LowBit(v.hi));
    MirrorBits(v.hi);
    MirrorBits(v.lo);
    MirrorPolys();
    MirrorAdd(Shr1(v.hi, false), if LowBit(v.lo) then 0xe100_0000_0000_0000 else 0);
  }

  lemma Laws128()
    ensures Laws(Field128)
  {
    hide Mirror, MulX128, MirrorX128, MirrorX128Eight, Add, PowerM;
    var f := Field128;
    forall a, b, c
      ensures AddLaw(f, a, b, c)
    {
      AddCommutes(a.hi, b.hi);
      AddCommutes(a.lo, b.lo);
      AddAssociates(a.hi, b.hi, c.hi);
      AddAssociates(a.lo, b.lo, c.lo);
      AddZero(a.hi);
      AddZero(a.lo);
    }
    forall a, b
      ensures MirrorLaw(f, a, b)
    {
      MirrorAdd(a.hi, b.hi);
      MirrorAdd(a.lo, b.lo);
      MirrorTwice(a.hi);
      MirrorTwice(a.lo);
      MirrorMulX128(a);
      ByteTable128(a);
    }
    MirrorPolys();
  }
}
