// Multiplication in a binary field by tables, over any field representation that obeys a few laws.
module GfField {
  import opened Bytes

  /** Elements in the order the modes use (most significant bit first) with `add` (xor) and `mulx` (times x);
      and, for elements with their bits mirrored, `mirrorX` and `mirrorX8` (times x and x^8). */
  datatype Field<!E> = Field(
    zero: E, add: (E, E) -> E, mulx: E -> E,
    mirror: E -> E, mirrorX: E -> E, mirrorX8: E -> E)

  /** Addition is commutative and associative with a zero. */
  ghost predicate AddLaw<E>(f: Field<E>, a: E, b: E, c: E) {
    f.add(a, b) == f.add(b, a) && f.add(f.add(a, b), c) == f.add(a, f.add(b, c)) && f.add(a, f.zero) == a
  }

  /** Mirroring undoes itself, is additive, and turns one multiplication by x into the other. */
  ghost predicate MirrorLaw<E>(f: Field<E>, a: E, b: E) {
    && f.mirror(f.add(a, b)) == f.add(f.mirror(a), f.mirror(b))
    && f.mirror(f.mirror(a)) == a
    && f.mirror(f.mirrorX(a)) == f.mulx(f.mirror(a))
    && f.mirrorX8(a) == PowerM(f, a, 8)
  }

  ghost predicate Laws<E(!new)>(f: Field<E>) {
    && (forall a, b, c :: AddLaw(f, a, b, c))
    && (forall a, b :: MirrorLaw(f, a, b))
    && f.mirror(f.zero) == f.zero
  }

  lemma AddLaws<E(!new)>(f: Field<E>, a: E, b: E, c: E)
    requires Laws(f)
    ensures f.add(a, b) == f.add(b, a) && f.add(f.add(a, b), c) == f.add(a, f.add(b, c)) && f.add(a, f.zero) == a
  {
    assert AddLaw(f, a, b, c);
  }

  /** a times x^n */
  function Power<E>(f: Field<E>, a: E, n: nat): E {
    if n == 0 then a else f.mulx(Power(f, a, n - 1))
  }

  /** The same on a mirrored element. */
  function PowerM<E>(f: Field<E>, a: E, n: nat): E {
    if n == 0 then a else f.mirrorX(PowerM(f, a, n - 1))
  }

  lemma {:induction false} PowerMAdd<E>(f: Field<E>, a: E, m: nat, n: nat)
    ensures PowerM(f, PowerM(f, a, m), n) == PowerM(f, a, m + n)
  {
    if n > 0 {
      PowerMAdd(f, a, m, n - 1);
    }
  }

  lemma {:induction false} PowerMirror<E(!new)>(f: Field<E>, a: E, n: nat)
    requires Laws(f)
    ensures f.mirror(PowerM(f, f.mirror(a), n)) == Power(f, a, n)
  {
    assert MirrorLaw(f, a, a);
    if n > 0 {
      PowerMirror(f, a, n - 1);
      assert MirrorLaw(f, PowerM(f, f.mirror(a), n - 1), a);
    }
  }

  /** Bit `i` of a number kept most significant byte first (IsBitSet128, IsBitSet64). */
  function BitSet(b: seq<byte>, i: nat): bool
    requires i < 8 * |b|
  {
    NibbleBit(Half(b[|b| - 1 - i / 8], (i / 4) % 2), i % 4)
  }

  /** The low (0) or high (1) half of a byte. */
  function Half(c: byte, h: nat): (n: nat)
    requires h < 2
    ensures n < 16
  {
    if h == 0 then c % 16 else c / 16
  }

  function NibbleBit(n: nat, q: nat): bool {
    if q == 0 then n % 2 == 1 else if q == 1 then n / 2 % 2 == 1 else if q == 2 then n / 4 % 2 == 1 else n / 8 % 2 == 1
  }

  /** The schoolbook product: the sum of a * x^i over the bits i < n that are set in b. */
  function Product<E>(f: Field<E>, a: E, b: seq<byte>, n: nat): E
    requires n <= 8 * |b|
  {
    if n == 0 then f.zero
    else f.add(Product(f, a, b, n - 1), Pick(f, BitSet(b, n - 1), Power(f, a, n - 1)))
  }

  function Pick<E>(f: Field<E>, bit: bool, e: E): E { if bit then e else f.zero }

  /** The sum of those of four elements that the bits of `j` choose. */
  function Choose<E>(f: Field<E>, e0: E, e1: E, e2: E, e3: E, j: nat): E {
    f.add(f.add(f.add(Pick(f, NibbleBit(j, 0), e0), Pick(f, NibbleBit(j, 1), e1)), Pick(f, NibbleBit(j, 2), e2)),
      Pick(f, NibbleBit(j, 3), e3))
  }

  /** The part of the product that one nibble contributes. */
  function NibbleProduct<E>(f: Field<E>, a: E, base: nat, j: nat): E {
    Choose(f, Power(f, a, base), Power(f, a, base + 1), Power(f, a, base + 2), Power(f, a, base + 3), j)
  }

  /** The part of the product that byte `m` (from the end) contributes. */
  function ByteProduct<E>(f: Field<E>, a: E, b: seq<byte>, m: nat): E
    requires m < |b|
  {
    f.add(NibbleProduct(f, a, 8 * m, Half(b[|b| - 1 - m], 0)), NibbleProduct(f, a, 8 * m + 4, Half(b[|b| - 1 - m], 1)))
  }

  lemma Regroup<E(!new)>(f: Field<E>, p: E, a: E, b: E, c: E, d: E)
    requires Laws(f)
    ensures f.add(f.add(f.add(f.add(p, a), b), c), d) == f.add(p, f.add(f.add(f.add(a, b), c), d))
  {
    AddLaws(f, p, a, b);
    AddLaws(f, p, f.add(a, b), c);
    AddLaws(f, p, f.add(f.add(a, b), c), d);
  }

  lemma NibbleStep<E(!new)>(f: Field<E>, a: E, b: seq<byte>, n: nat)
    requires Laws(f) && n % 4 == 0 && n + 4 <= 8 * |b|
    ensures Product(f, a, b, n + 4) ==
      f.add(Product(f, a, b, n), NibbleProduct(f, a, n, Half(b[|b| - 1 - n / 8], n / 4 % 2)))
  {
    var h := Half(b[|b| - 1 - n / 8], n / 4 % 2);
    forall q | 0 <= q < 4
      ensures BitSet(b, n + q) == NibbleBit(h, q)
    {
      assert (n + q) / 8 == n / 8 && (n + q) / 4 == n / 4 && (n + q) % 4 == q;
    }
    assert BitSet(b, n + 0) == NibbleBit(h, 0) && BitSet(b, n + 1) == NibbleBit(h, 1);
    assert BitSet(b, n + 2) == NibbleBit(h, 2) && BitSet(b, n + 3) == NibbleBit(h, 3);
    assert Product(f, a, b, n + 1) == f.add(Product(f, a, b, n), Pick(f, NibbleBit(h, 0), Power(f, a, n)));
    assert Product(f, a, b, n + 2) == f.add(Product(f, a, b, n + 1), Pick(f, NibbleBit(h, 1), Power(f, a, n + 1)));
    assert Product(f, a, b, n + 3) == f.add(Product(f, a, b, n + 2), Pick(f, NibbleBit(h, 2), Power(f, a, n + 2)));
    assert Product(f, a, b, n + 4) == f.add(Product(f, a, b, n + 3), Pick(f, NibbleBit(h, 3), Power(f, a, n + 3)));
    Regroup(f, Product(f, a, b, n), Pick(f, NibbleBit(h, 0), Power(f, a, n)), Pick(f, NibbleBit(h, 1), Power(f, a, n + 1)),
      Pick(f, NibbleBit(h, 2), Power(f, a, n + 2)), Pick(f, NibbleBit(h, 3), Power(f, a, n + 3)));
  }

  lemma ByteStep<E(!new)>(f: Field<E>, a: E, b: seq<byte>, m: nat)
    requires Laws(f) && m < |b|
    ensures Product(f, a, b, 8 * m + 8) == f.add(Product(f, a, b, 8 * m), ByteProduct(f, a, b, m))
  {
    hide Laws, NibbleProduct, Product, Half;
    NibbleStep(f, a, b, 8 * m);
    NibbleStep(f, a, b, 8 * m + 4);
    var c := b[|b| - 1 - m];
    AddLaws(f, Product(f, a, b, 8 * m), NibbleProduct(f, a, 8 * m, Half(c, 0)), NibbleProduct(f, a, 8 * m + 4, Half(c, 1)));
    assert (8 * m) / 8 == m && (8 * m) / 4 % 2 == 0 && (8 * m + 4) / 8 == m && (8 * m + 4) / 4 % 2 == 1;
  }

  lemma NoNibble<E(!new)>(f: Field<E>, a: E, base: nat)
    requires Laws(f)
    ensures NibbleProduct(f, a, base, 0) == f.zero
  {
    AddLaws(f, f.zero, f.zero, f.zero);
  }

  /** A byte that is zero contributes nothing. */
  lemma ZeroByte<E(!new)>(f: Field<E>, a: E, b: seq<byte>, m: nat)
    requires Laws(f) && m < |b| && b[|b| - 1 - m] == 0
    ensures ByteProduct(f, a, b, m) == f.zero
  {
    hide Laws, NibbleProduct;
    NoNibble(f, a, 8 * m);
    NoNibble(f, a, 8 * m + 4);
    AddLaws(f, f.zero, f.zero, f.zero);
  }

  lemma ExtendedBit(b: seq<byte>, zeros: nat, i: nat)
    requires i < 8 * (zeros + |b|)
    ensures BitSet(Extended(b, zeros), i) == (i < 8 * |b| && BitSet(b, i))
  {
    var e := Extended(b, zeros);
    if i < 8 * |b| {
      assert e[|e| - 1 - i / 8] == b[|b| - 1 - i / 8];
    } else {
      assert e[|e| - 1 - i / 8] == 0;
    }
  }

  /** Leading zero bytes do not change the product. */
  lemma {:induction false} ProductZeroExtended<E(!new)>(f: Field<E>, a: E, b: seq<byte>, zeros: nat, n: nat)
    requires Laws(f) && n <= 8 * (zeros + |b|)
    ensures Product(f, a, Extended(b, zeros), n) == Product(f, a, b, if n <= 8 * |b| then n else 8 * |b|)
  {
    hide Laws, BitSet, Power;
    if n > 0 {
      ProductZeroExtended(f, a, b, zeros, n - 1);
      ExtendedBit(b, zeros, n - 1);
      if n > 8 * |b| {
        AddLaws(f, Product(f, a, b, 8 * |b|), f.zero, f.zero);
      }
    }
  }

  /** `b` with `zeros` zero bytes before its most significant byte. */
  function Extended(b: seq<byte>, zeros: nat): seq<byte> { seq(zeros, i => 0) + b }

  lemma MirrorChoose<E(!new)>(f: Field<E>, e0: E, e1: E, e2: E, e3: E, j: nat)
    requires Laws(f)
    ensures f.mirror(Choose(f, e0, e1, e2, e3, j)) == Choose(f, f.mirror(e0), f.mirror(e1), f.mirror(e2), f.mirror(e3), j)
  {
    hide NibbleBit;
    var p0, p1, p2, p3 := Pick(f, NibbleBit(j, 0), e0), Pick(f, NibbleBit(j, 1), e1), Pick(f, NibbleBit(j, 2), e2), Pick(f, NibbleBit(j, 3), e3);
    assert MirrorLaw(f, p0, p1) && MirrorLaw(f, f.add(p0, p1), p2) && MirrorLaw(f, f.add(f.add(p0, p1), p2), p3);
  }

  /** Lines 637 to 641: the four bits of `j` in reverse. */
  function Reversed4(j: nat): (r: nat)
    ensures r < 16
  {
    8 * (j % 2) + 4 * (j / 2 % 2) + 2 * (j / 4 % 2) + j / 8 % 2
  }

  lemma FromBits(b0: nat, b1: nat, b2: nat, b3: nat)
    requires b0 < 2 && b1 < 2 && b2 < 2 && b3 < 2
    ensures var n := 8 * b3 + 4 * b2 + 2 * b1 + b0;
      n % 2 == b0 && n / 2 % 2 == b1 && n / 4 % 2 == b2 && n / 8 % 2 == b3
  {
  }

  lemma ReversedBits(j: nat)
    requires j < 16
    ensures NibbleBit(Reversed4(j), 0) == NibbleBit(j, 3) && NibbleBit(Reversed4(j), 1) == NibbleBit(j, 2)
    ensures NibbleBit(Reversed4(j), 2) == NibbleBit(j, 1) && NibbleBit(Reversed4(j), 3) == NibbleBit(j, 0)
  {
    FromBits(j / 8 % 2, j / 4 % 2, j / 2 % 2, j % 2);
  }

  lemma ReversedTwice(j: nat)
    requires j < 16
    ensures Reversed4(Reversed4(j)) == j
  {
    FromBits(j / 8 % 2, j / 4 % 2, j / 2 % 2, j % 2);
    SumOfBits(j);
  }

  lemma SumOfBits(j: nat)
    requires j < 16
    ensures j == 8 * (j / 8 % 2) + 4 * (j / 4 % 2) + 2 * (j / 2 % 2) + j % 2
  {
  }

  lemma ChooseReversed<E(!new)>(f: Field<E>, e0: E, e1: E, e2: E, e3: E, j: nat)
    requires Laws(f) && j < 16
    ensures Choose(f, e3, e2, e1, e0, Reversed4(j)) == Choose(f, e0, e1, e2, e3, j)
  {
    hide Laws, NibbleBit, Reversed4;
    ReversedBits(j);
    var p0, p1, p2, p3 := Pick(f, NibbleBit(j, 0), e0), Pick(f, NibbleBit(j, 1), e1), Pick(f, NibbleBit(j, 2), e2), Pick(f, NibbleBit(j, 3), e3);
    Reorder4(f, p0, p1, p2, p3);
  }

  lemma Reorder4<E(!new)>(f: Field<E>, a: E, b: E, c: E, d: E)
    requires Laws(f)
    ensures f.add(f.add(f.add(d, c), b), a) == f.add(f.add(f.add(a, b), c), d)
  {
    AddLaws(f, d, c, b);
    AddLaws(f, f.add(d, c), b, a);
    AddLaws(f, f.add(f.add(d, c), b), a, a);
    AddLaws(f, b, f.add(d, c), a);
    AddLaws(f, a, b, f.add(d, c));
    AddLaws(f, f.add(a, b), c, d);
    AddLaws(f, a, f.add(b, f.add(d, c)), a);
  }
}
