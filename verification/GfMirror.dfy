// MirrorBits128 and MirrorBits64 on bytes, and what the fast multiplications compute.
module GfMirror {
  import opened Bytes
  import opened Words
  import opened GfField
  import opened GfMul
  import opened GfInstances

  /** 0x80 >> q */
  function ByteMask(q: nat): bv8
    requires q < 8
  {
    if q == 0 then 0x80 else if q == 1 then 0x40 else if q == 2 then 0x20 else if q == 3 then 0x10
    else if q == 4 then 0x08 else if q == 5 then 0x04 else if q == 6 then 0x02 else 0x01
  }

  function Has(c: bv8, m: bv8): bool { c & m != 0 }

  function With(c: bv8, m: bv8): bv8 { c | m }

  /** The lowest `r` bits of `c` in reverse at the top of a byte. */
  function Part(c: bv8, r: nat): bv8
    requires r <= 8
  {
    if r == 0 then 0
    else if Has(c, ByteMask(8 - r)) then With(Part(c, r - 1), ByteMask(r - 1)) else Part(c, r - 1)
  }

  /** A byte with its bits in reverse. */
  function ByteReversed(c: bv8): bv8 { Part(c, 8) }

  /** Bit `i` from the least significant end of the last byte is moved to bit `i` from the other end. */
  method MirrorBits(a: array<bv8>)
    requires a.Length > 0
    modifies a
    ensures forall k :: 0 <= k < a.Length ==> a[k] == ByteReversed(old(a[a.Length - 1 - k]))
  {
    hide Part, ByteMask, Has, With;
    var n := a.Length;
    var t := new bv8[n](i => 0);
    var i := 0;
    PartNone();
    while i < 8 * n
      invariant 0 <= i <= 8 * n && fresh(t) && t.Length == n && a[..] == old(a[..])
      invariant forall k :: 0 <= k < n ==>
        t[k] == if k < i / 8 then Part(a[n - 1 - k], 8) else if k == i / 8 then Part(a[n - 1 - k], i % 8) else 0
    {
      var from, to := 8 * n - 1 - i, i;
      assert from / 8 == n - 1 - i / 8 && from % 8 == 7 - i % 8;
      PartStep(a[n - 1 - i / 8], i % 8);
      if Has(a[from / 8], ByteMask(from % 8)) {
        t[to / 8] := With(t[to / 8], ByteMask(to % 8));
      }
      i := i + 1;
      assert i % 8 == 0 ==> i / 8 == (i - 1) / 8 + 1;
      assert i % 8 != 0 ==> i / 8 == (i - 1) / 8 && i % 8 == (i - 1) % 8 + 1;
    }
    forall k | 0 <= k < n { a[k] := t[k]; }
  }

  lemma PartNone()
    ensures forall c :: Part(c, 0) == 0
  {
  }

  lemma PartStep(c: bv8, r: nat)
    requires r < 8
    ensures Part(c, r + 1) == if Has(c, ByteMask(7 - r)) then With(Part(c, r), ByteMask(r)) else Part(c, r)
  {
  }

  /** The bits of a byte in reverse, by swapping halves. */
  function Swapped(c: bv8): bv8 {
    var a := ((c & 0x55) << 1) | ((c >> 1) & 0x55);
    var b := ((a & 0x33) << 2) | ((a >> 2) & 0x33);
    (b << 4) | (b >> 4)
  }

  lemma ReversedIsSwapped(c: bv8)
    ensures ByteReversed(c) == Swapped(c)
  {
    assert Part(c, 0) == 0;
    assert Part(c, 1) == if c & 0x01 != 0 then 0x80 else 0;
    assert Part(c, 2) == if c & 0x02 != 0 then Part(c, 1) | 0x40 else Part(c, 1);
    assert Part(c, 3) == if c & 0x04 != 0 then Part(c, 2) | 0x20 else Part(c, 2);
    assert Part(c, 4) == if c & 0x08 != 0 then Part(c, 3) | 0x10 else Part(c, 3);
    assert Part(c, 5) == if c & 0x10 != 0 then Part(c, 4) | 0x08 else Part(c, 4);
    assert Part(c, 6) == if c & 0x20 != 0 then Part(c, 5) | 0x04 else Part(c, 5);
    assert Part(c, 7) == if c & 0x40 != 0 then Part(c, 6) | 0x02 else Part(c, 6);
    assert Part(c, 8) == if c & 0x80 != 0 then Part(c, 7) | 0x01 else Part(c, 7);
  }

  /** A byte at a place of a big-endian word: place 0 is the most significant. */
  function At(b: bv8, k: nat): bv64
    requires k < 8
  {
    var w := b as bv64;
    if k == 0 then w << 56 else if k == 1 then w << 48 else if k == 2 then w << 40 else if k == 3 then w << 32
    else if k == 4 then w << 24 else if k == 5 then w << 16 else if k == 6 then w << 8 else w
  }

  function Or(a: bv64, b: bv64): bv64 { a | b }

  lemma Places(b: bv8)
    ensures At(b, 0) == (b as bv64) << 56 && At(b, 1) == (b as bv64) << 48 && At(b, 2) == (b as bv64) << 40
      && At(b, 3) == (b as bv64) << 32 && At(b, 4) == (b as bv64) << 24 && At(b, 5) == (b as bv64) << 16
      && At(b, 6) == (b as bv64) << 8 && At(b, 7) == b as bv64
  {
  }

  lemma WordIsOr(b0: bv8, b1: bv8, b2: bv8, b3: bv8, b4: bv8, b5: bv8, b6: bv8, b7: bv8)
    ensures Word(b0, b1, b2, b3, b4, b5, b6, b7) ==
      Or(Or(Or(Or(Or(Or(Or(At(b0, 0), At(b1, 1)), At(b2, 2)), At(b3, 3)), At(b4, 4)), At(b5, 5)), At(b6, 6)), At(b7, 7))
  {
    hide At;
    Places(b0);
    Places(b1);
    Places(b2);
    Places(b3);
    Places(b4);
    Places(b5);
    Places(b6);
    Places(b7);
  }

  lemma MirrorOr(v: bv64, w: bv64)
    ensures Mirror(Or(v, w)) == Or(Mirror(v), Mirror(w))
  {
  }

  lemma SwappedAt(b: bv8, k: nat)
    requires k < 8
    ensures Mirror(At(b, k)) == At(Swapped(b), 7 - k)
  {
    if k == 0 { Swapped0(b); } else if k == 1 { Swapped1(b); } else if k == 2 { Swapped2(b); } else if k == 3 { Swapped3(b); }
    else if k == 4 { Swapped4(b); } else if k == 5 { Swapped5(b); } else if k == 6 { Swapped6(b); } else { Swapped7(b); }
  }

  lemma Swapped0(b: bv8)
    ensures Mirror((b as bv64) << 56) == (Swapped(b) as bv64)
  {
  }

  lemma Swapped1(b: bv8)
    ensures Mirror((b as bv64) << 48) == (Swapped(b) as bv64) << 8
  {
  }

  lemma Swapped2(b: bv8)
    ensures Mirror((b as bv64) << 40) == (Swapped(b) as bv64) << 16
  {
  }

  lemma Swapped3(b: bv8)
    ensures Mirror((b as bv64) << 32) == (Swapped(b) as bv64) << 24
  {
  }

  lemma Swapped4(b: bv8)
    ensures Mirror((b as bv64) << 24) == (Swapped(b) as bv64) << 32
  {
  }

  lemma Swapped5(b: bv8)
    ensures Mirror((b as bv64) << 16) == (Swapped(b) as bv64) << 40
  {
  }

  lemma Swapped6(b: bv8)
    ensures Mirror((b as bv64) << 8) == (Swapped(b) as bv64) << 48
  {
  }

  lemma Swapped7(b: bv8)
    ensures Mirror((b as bv64)) == (Swapped(b) as bv64) << 56
  {
  }

  lemma OrReorders(a: bv64, b: bv64, c: bv64)
    ensures Or(a, b) == Or(b, a) && Or(Or(a, b), c) == Or(a, Or(b, c))
  {
  }

  lemma SwappedWord(b0: bv8, b1: bv8, b2: bv8, b3: bv8, b4: bv8, b5: bv8, b6: bv8, b7: bv8)
    ensures Mirror(Word(b0, b1, b2, b3, b4, b5, b6, b7)) ==
      Or(Or(Or(Or(Or(Or(Or(At(Swapped(b0), 7), At(Swapped(b1), 6)), At(Swapped(b2), 5)), At(Swapped(b3), 4)),
        At(Swapped(b4), 3)), At(Swapped(b5), 2)), At(Swapped(b6), 1)), At(Swapped(b7), 0))
  {
    hide Mirror, At, Swapped, Or, Word;
    WordIsOr(b0, b1, b2, b3, b4, b5, b6, b7);
    SwappedAt(b0, 0);
    SwappedAt(b1, 1);
    SwappedAt(b2, 2);
    SwappedAt(b3, 3);
    SwappedAt(b4, 4);
    SwappedAt(b5, 5);
    SwappedAt(b6, 6);
    SwappedAt(b7, 7);
    var w1 := Or(At(b0, 0), At(b1, 1));
    var w2 := Or(w1, At(b2, 2));
    var w3 := Or(w2, At(b3, 3));
    var w4 := Or(w3, At(b4, 4));
    var w5 := Or(w4, At(b5, 5));
    var w6 := Or(w5, At(b6, 6));
    MirrorOr(At(b0, 0), At(b1, 1));
    MirrorOr(w1, At(b2, 2));
    MirrorOr(w2, At(b3, 3));
    MirrorOr(w3, At(b4, 4));
    MirrorOr(w4, At(b5, 5));
    MirrorOr(w5, At(b6, 6));
    MirrorOr(w6, At(b7, 7));
  }

  /** The bytes of a word may be put together from either end. */
  lemma FromEitherEnd(x0: bv64, x1: bv64, x2: bv64, x3: bv64, x4: bv64, x5: bv64, x6: bv64, x7: bv64)
    ensures Or(Or(Or(Or(Or(Or(Or(x7, x6), x5), x4), x3), x2), x1), x0)
      == Or(Or(Or(Or(Or(Or(Or(x0, x1), x2), x3), x4), x5), x6), x7)
  {
    hide Or;
    var l6 := Or(x7, x6);
    var l5 := Or(l6, x5);
    var l4 := Or(l5, x4);
    var l3 := Or(l4, x3);
    var l2 := Or(l3, x2);
    var l1 := Or(l2, x1);
    var r1 := Or(x0, x1);
    var r2 := Or(r1, x2);
    var r3 := Or(r2, x3);
    var r4 := Or(r3, x4);
    var r5 := Or(r4, x5);
    Turn(l2, x1, x0);
    Turn(l3, x2, r1);
    Turn(l4, x3, r2);
    Turn(l5, x4, r3);
    Turn(l6, x5, r4);
    Turn(x7, x6, r5);
    OrReorders(l1, x0, x0);
    OrReorders(x7, Or(r5, x6), x0);
  }

  lemma Turn(l: bv64, x: bv64, r: bv64)
    ensures Or(r, Or(l, x)) == Or(Or(r, x), l)
  {
    hide Or;
    OrReorders(l, x, x);
    OrReorders(r, x, l);
  }

  /** So on eight bytes MirrorBits is the mirroring of the word they stand for. */
  lemma MirrorOfBytes(s: seq<bv8>, t: seq<bv8>)
    requires |s| == |t| == 8 && forall k :: 0 <= k < 8 ==> t[k] == ByteReversed(s[7 - k])
    ensures Word(t[0], t[1], t[2], t[3], t[4], t[5], t[6], t[7]) ==
      Mirror(Word(s[0], s[1], s[2], s[3], s[4], s[5], s[6], s[7]))
  {
    hide ByteReversed, Swapped, Mirror, At, Or, Word;
    WordIsOr(t[0], t[1], t[2], t[3], t[4], t[5], t[6], t[7]);
    SwappedWord(s[0], s[1], s[2], s[3], s[4], s[5], s[6], s[7]);
    FromEitherEnd(At(Swapped(s[7]), 0), At(Swapped(s[6]), 1), At(Swapped(s[5]), 2), At(Swapped(s[4]), 3),
      At(Swapped(s[3]), 4), At(Swapped(s[2]), 5), At(Swapped(s[1]), 6), At(Swapped(s[0]), 7));
    forall k | 0 <= k < 8
      ensures t[k] == Swapped(s[7 - k])
    {
      ReversedIsSwapped(s[7 - k]);
    }
  }

  // ----- The products -----

  /** Gf128Tab64Init, then Gf128MulBy64Tab, against GfMul128Basic with the multiplier extended by eight zero
      bytes. */
  method Gf128Agrees(a: Elem, b: seq<byte>) returns (fast: Elem, basic: Elem)
    requires |b| == 8
    ensures fast == basic == Product(Field128, a, b, 64)
  {
    hide Product, BitSet, Laws;
    Laws128();
    var gf := new Elem[16, 16]((i, j) => Elem(0, 0));
    TabInit(Field128, a, gf, 32);
    fast := MulTab(Field128, gf, b, a);
    basic := MulBasic(Field128, a, Extended(b, 8));
    ProductZeroExtended(Field128, a, b, 8, 128);
  }

  /** Gf64TabInit, then Gf64MulTab, against GfMul64Basic. */
  method Gf64Agrees(a: bv64, b: seq<byte>) returns (fast: bv64, basic: bv64)
    requires |b| == 8
    ensures fast == basic == Product(Field64, a, b, 64)
  {
    hide Product, BitSet, Laws;
    Laws64();
    var gf := new bv64[16, 16]((i, j) => 0);
    TabInit(Field64, a, gf, 16);
    fast := MulTab(Field64, gf, b, a);
    basic := MulBasic(Field64, a, b);
  }
}
