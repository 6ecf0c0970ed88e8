// Table multiplication against schoolbook multiplication.
module GfMul {
  import opened Bytes
  import opened GfField
  import opened GfTables

  /** The power of x that bit 0 of row `k` of the finished table stands for. */
  function TableBase(k: nat): nat
    requires k < 16
  {
    8 * (7 - k / 2) + 4 * (k % 2)
  }

  /** Every entry is the product of `a` with the nibble at its place. */
  ghost predicate TableFor<E>(f: Field<E>, a: E, gf: array2<E>)
    reads gf
  {
    && gf.Length0 == 16 && gf.Length1 == 16
    && forall k, j :: 0 <= k < 16 && 0 <= j < 16 ==> gf[k, j] == NibbleProduct(f, a, TableBase(k), j)
  }

  lemma MirroredEntry<E(!new)>(f: Field<E>, a: E, k: nat, j: nat)
    requires Laws(f) && k < 16 && j < 16
    ensures f.mirror(RowEntry(f, f.mirror(a), 15 - k, j)) == NibbleProduct(f, a, TableBase(k), Reversed4(j))
  {
    hide Laws, Choose, PowerM, Power, Reversed4;
    var e := RowBase(15 - k);
    assert e == TableBase(k);
    var am := f.mirror(a);
    MirrorChoose(f, PowerM(f, am, e + 3), PowerM(f, am, e + 2), PowerM(f, am, e + 1), PowerM(f, am, e), j);
    PowerMirror(f, a, e);
    PowerMirror(f, a, e + 1);
    PowerMirror(f, a, e + 2);
    PowerMirror(f, a, e + 3);
    ChooseReversed(f, Power(f, a, e + 3), Power(f, a, e + 2), Power(f, a, e + 1), Power(f, a, e), j);
  }

  /** Gf128Tab64Init with 32 rows of scratch table, Gf64TabInit with 16. */
  method TabInit<E(!new)>(f: Field<E>, a: E, gf: array2<E>, rows: nat)
    requires Laws(f) && rows >= 16 && gf.Length0 == 16 && gf.Length1 == 16
    modifies gf
    ensures TableFor(f, a, gf)
  {
    hide Laws, NibbleProduct, RowEntry, Reversed4, TableBase;
    var am := f.mirror(a);
    var t := new E[rows, 16]((i, j) => f.zero);
    CompileTable(f, am, t);
    for i := 0 to 16
      invariant t != gf && forall r :: 0 <= r < rows ==> RowDone(f, t, am, r)
      invariant forall k, n :: 0 <= k < i && 0 <= n < 16 ==> gf[k, n] == NibbleProduct(f, a, TableBase(k), n)
    {
      for j := 0 to 16
        invariant t != gf && forall r :: 0 <= r < rows ==> RowDone(f, t, am, r)
        invariant forall k, n :: 0 <= k < i && 0 <= n < 16 ==> gf[k, n] == NibbleProduct(f, a, TableBase(k), n)
        invariant forall n :: 0 <= n < 16 && Reversed4(n) < j ==> gf[i, n] == NibbleProduct(f, a, TableBase(i), n)
      {
        ReversedOnly(j);
        MirroredEntry(f, a, i, j);
        assert RowDone(f, t, am, 15 - i);
        var jm := Reversed4(j);
        gf[i, jm] := t[15 - i, j];
        gf[i, jm] := f.mirror(gf[i, jm]);
      }
      AllReversed();
    }
  }

  lemma ReversedOnly(j: nat)
    requires j < 16
    ensures forall n :: 0 <= n < 16 && Reversed4(n) == j ==> n == Reversed4(j)
    ensures Reversed4(Reversed4(j)) == j
  {
    ReversedTwice(j);
    forall n | 0 <= n < 16 && Reversed4(n) == j
      ensures n == Reversed4(j)
    {
      ReversedTwice(n);
    }
  }

  lemma AllReversed()
    ensures forall n :: 0 <= n < 16 ==> Reversed4(n) < 16
  {
  }

  // ----- Sums in another order -----

  function Sum<E>(f: Field<E>, s: seq<E>): E {
    if s == [] then f.zero else f.add(Sum(f, s[..|s| - 1]), s[|s| - 1])
  }

  lemma {:induction false} SumFirst<E(!new)>(f: Field<E>, x: E, s: seq<E>)
    requires Laws(f)
    ensures Sum(f, [x] + s) == f.add(x, Sum(f, s))
  {
    hide Laws;
    if s == [] {
      AddLaws(f, f.zero, x, x);
      assert [x] + s == [x] && [x][..0] == [];
    } else {
      var n := |s| - 1;
      assert ([x] + s)[..n + 1] == [x] + s[..n];
      SumFirst(f, x, s[..n]);
      AddLaws(f, x, Sum(f, s[..n]), s[n]);
    }
  }

  function Reverse<E>(s: seq<E>): seq<E> { if s == [] then [] else [s[|s| - 1]] + Reverse(s[..|s| - 1]) }

  lemma {:induction false} SumReverse<E(!new)>(f: Field<E>, s: seq<E>)
    requires Laws(f)
    ensures Sum(f, Reverse(s)) == Sum(f, s)
  {
    hide Laws;
    if s != [] {
      var n := |s| - 1;
      SumReverse(f, s[..n]);
      SumFirst(f, s[n], Reverse(s[..n]));
      AddLaws(f, Sum(f, s[..n]), s[n], s[n]);
    }
  }

  /** The products of the bytes, from the least significant. */
  function ByteProducts<E>(f: Field<E>, a: E, b: seq<byte>, n: nat): seq<E>
    requires n <= |b|
  {
    if n == 0 then [] else ByteProducts(f, a, b, n - 1) + [ByteProduct(f, a, b, n - 1)]
  }

  lemma {:induction false} ProductIsSum<E(!new)>(f: Field<E>, a: E, b: seq<byte>, n: nat)
    requires Laws(f) && n <= |b|
    ensures Product(f, a, b, 8 * n) == Sum(f, ByteProducts(f, a, b, n))
  {
    hide Laws, ByteProduct, BitSet, Power;
    if n > 0 {
      ProductIsSum(f, a, b, n - 1);
      ByteStep(f, a, b, n - 1);
      SumLast(f, ByteProducts(f, a, b, n - 1), ByteProduct(f, a, b, n - 1));
    }
  }

  lemma SumLast<E>(f: Field<E>, s: seq<E>, x: E)
    ensures Sum(f, s + [x]) == f.add(Sum(f, s), x)
  {
    assert (s + [x])[..|s|] == s;
  }

  lemma {:induction false} ByteProductsLength<E>(f: Field<E>, a: E, b: seq<byte>, n: nat)
    requires n <= |b|
    ensures |ByteProducts(f, a, b, n)| == n
    ensures forall m :: 0 <= m < n ==> ByteProducts(f, a, b, n)[m] == ByteProduct(f, a, b, m)
  {
    if n > 0 {
      ByteProductsLength(f, a, b, n - 1);
    }
  }

  // ----- Gf128MulBy64Tab and Gf64MulTab -----

  /** Two lookups (xor_8kt64, xor_8k64): add the product with byte `i`. */
  method AddByte<E(!new)>(f: Field<E>, gf: array2<E>, b: seq<byte>, i: nat, r: E, ghost a: E) returns (r': E)
    requires Laws(f) && TableFor(f, a, gf) && |b| == 8 && i < 8
    ensures r' == f.add(r, ByteProduct(f, a, b, 7 - i))
  {
    hide Laws, NibbleProduct, Half;
    r' := f.add(r, gf[i + i, Half(b[i], 0)]);
    r' := f.add(r', gf[i + i + 1, Half(b[i], 1)]);
    AddLaws(f, r, gf[i + i, Half(b[i], 0)], gf[i + i + 1, Half(b[i], 1)]);
    assert TableBase(i + i) == 8 * (7 - i) && TableBase(i + i + 1) == 8 * (7 - i) + 4;
  }

  /** The product by lookups: byte 7 first, then bytes 0 to 6, where the first three are skipped when they
      are zero. */
  method MulTab<E(!new)>(f: Field<E>, gf: array2<E>, b: seq<byte>, ghost a: E) returns (r: E)
    requires Laws(f) && TableFor(f, a, gf) && |b| == 8
    ensures r == Product(f, a, b, 64)
  {
    hide Laws, TableFor, ByteProduct, Product;
    r := First(f, gf, b, a);
    ghost var p := r;
    if b[0] != 0 || b[1] != 0 {
      r := AddByte(f, gf, b, 0, r, a);
      r := AddByte(f, gf, b, 1, r, a);
    } else {
      SkipByte(f, a, b, 7, r);
      SkipByte(f, a, b, 6, r);
    }
    if b[2] != 0 {
      r := AddByte(f, gf, b, 2, r, a);
    } else {
      SkipByte(f, a, b, 5, r);
    }
    r := AddByte(f, gf, b, 3, r, a);
    r := AddByte(f, gf, b, 4, r, a);
    r := AddByte(f, gf, b, 5, r, a);
    r := AddByte(f, gf, b, 6, r, a);
    InOrder(f, a, b);
  }

  /** Lines 701 and 702 */
  method First<E(!new)>(f: Field<E>, gf: array2<E>, b: seq<byte>, ghost a: E) returns (r: E)
    requires Laws(f) && TableFor(f, a, gf) && |b| == 8
    ensures r == ByteProduct(f, a, b, 0)
  {
    hide Laws, NibbleProduct;
    r := gf[14, Half(b[7], 0)];
    r := f.add(r, gf[15, Half(b[7], 1)]);
  }

  lemma SkipByte<E(!new)>(f: Field<E>, a: E, b: seq<byte>, m: nat, r: E)
    requires Laws(f) && m < |b| && b[|b| - 1 - m] == 0
    ensures f.add(r, ByteProduct(f, a, b, m)) == r
  {
    hide Laws, ByteProduct;
    ZeroByte(f, a, b, m);
    AddLaws(f, r, r, r);
  }

  /** The order of the additions does not matter. */
  lemma InOrder<E(!new)>(f: Field<E>, a: E, b: seq<byte>)
    requires Laws(f) && |b| == 8
    ensures Product(f, a, b, 64) ==
      f.add(f.add(f.add(f.add(f.add(f.add(f.add(ByteProduct(f, a, b, 0), ByteProduct(f, a, b, 7)), ByteProduct(f, a, b, 6)),
        ByteProduct(f, a, b, 5)), ByteProduct(f, a, b, 4)), ByteProduct(f, a, b, 3)), ByteProduct(f, a, b, 2)), ByteProduct(f, a, b, 1))
  {
    hide Laws, ByteProduct, Product;
    ProductIsSum(f, a, b, 8);
    ByteProductsLength(f, a, b, 8);
    var s := ByteProducts(f, a, b, 8);
    var t := s[1..];
    assert s == [s[0]] + t;
    SumFirst(f, s[0], t);
    SumReverse(f, t);
    SumFirst(f, s[0], Reverse(t));
    Reverse7(t);
    Sum8(f, s[0], s[7], s[6], s[5], s[4], s[3], s[2], s[1]);
    assert [s[0]] + [s[7], s[6], s[5], s[4], s[3], s[2], s[1]] == [s[0], s[7], s[6], s[5], s[4], s[3], s[2], s[1]];
  }

  lemma Reverse7<E>(t: seq<E>)
    requires |t| == 7
    ensures Reverse(t) == [t[6], t[5], t[4], t[3], t[2], t[1], t[0]]
  {
    assert Reverse(t[..0]) == [];
    assert t[..1][..0] == t[..0] && Reverse(t[..1]) == [t[0]];
    assert t[..2][..1] == t[..1] && Reverse(t[..2]) == [t[1], t[0]];
    assert t[..3][..2] == t[..2] && Reverse(t[..3]) == [t[2], t[1], t[0]];
    assert t[..4][..3] == t[..3] && Reverse(t[..4]) == [t[3], t[2], t[1], t[0]];
    assert t[..5][..4] == t[..4] && Reverse(t[..5]) == [t[4], t[3], t[2], t[1], t[0]];
    assert t[..6][..5] == t[..5] && Reverse(t[..6]) == [t[5], t[4], t[3], t[2], t[1], t[0]];
    assert t[..6] == t[..|t| - 1];
  }

  lemma Sum8<E(!new)>(f: Field<E>, a: E, b: E, c: E, d: E, e: E, g: E, h: E, i: E)
    requires Laws(f)
    ensures Sum(f, [a, b, c, d, e, g, h, i]) == f.add(f.add(f.add(f.add(f.add(f.add(f.add(a, b), c), d), e), g), h), i)
  {
    hide Laws;
    AddLaws(f, f.zero, a, a);
    AddLaws(f, a, a, a);
    SumLast(f, [], a);
    assert [] + [a] == [a];
    SumLast(f, [a], b);
    assert [a] + [b] == [a, b];
    SumLast(f, [a, b], c);
    assert [a, b] + [c] == [a, b, c];
    SumLast(f, [a, b, c], d);
    assert [a, b, c] + [d] == [a, b, c, d];
    SumLast(f, [a, b, c, d], e);
    assert [a, b, c, d] + [e] == [a, b, c, d, e];
    SumLast(f, [a, b, c, d, e], g);
    assert [a, b, c, d, e] + [g] == [a, b, c, d, e, g];
    SumLast(f, [a, b, c, d, e, g], h);
    assert [a, b, c, d, e, g] + [h] == [a, b, c, d, e, g, h];
    SumLast(f, [a, b, c, d, e, g, h], i);
    assert [a, b, c, d, e, g, h] + [i] == [a, b, c, d, e, g, h, i];
  }

  // ----- GfMul128Basic and GfMul64Basic -----

  /** 0x80 >> q */
  function Mask(q: nat): (m: nat)
    requires q < 8
    ensures m > 0
  {
    if q == 0 then 128 else if q == 1 then 64 else if q == 2 then 32 else if q == 3 then 16
    else if q == 4 then 8 else if q == 5 then 4 else if q == 6 then 2 else 1
  }

  /** IsBitSet128, IsBitSet64 */
  function IsBitSet(bit: nat, b: seq<byte>): bool
    requires bit < 8 * |b|
  {
    b[(8 * |b| - 1 - bit) / 8] / Mask((8 * |b| - 1 - bit) % 8) % 2 == 1
  }

  lemma BitInByte(c: byte, r: nat)
    requires r < 8
    ensures c / Mask(7 - r) % 2 == 1 <==> NibbleBit(Half(c, r / 4), r % 4)
  {
    LowBit0(c);
    LowBit1(c);
    LowBit2(c);
    LowBit3(c);
    HighHalf(c);
  }

  lemma LowBit0(c: byte)
    ensures c % 2 == c % 16 % 2
  {
  }

  lemma LowBit1(c: byte)
    ensures c / 2 % 2 == c % 16 / 2 % 2
  {
    assert c / 2 == 8 * (c / 16) + c % 16 / 2;
  }

  lemma LowBit2(c: byte)
    ensures c / 4 % 2 == c % 16 / 4 % 2
  {
    assert c / 4 == 4 * (c / 16) + c % 16 / 4;
  }

  lemma LowBit3(c: byte)
    ensures c / 8 % 2 == c % 16 / 8 % 2
  {
    assert c / 8 == 2 * (c / 16) + c % 16 / 8;
  }

  lemma HighHalf(c: byte)
    ensures c / 16 / 2 == c / 32 && c / 16 / 4 == c / 64 && c / 16 / 8 == c / 128
  {
  }

  lemma IsBitSetIs(bit: nat, b: seq<byte>)
    requires bit < 8 * |b|
    ensures IsBitSet(bit, b) == BitSet(b, bit)
  {
    hide Mask, NibbleBit, Half;
    var n := 8 * |b| - 1 - bit;
    assert n / 8 == |b| - 1 - bit / 8 && n % 8 == 7 - bit % 8;
    assert bit / 4 % 2 == bit % 8 / 4 && bit % 4 == bit % 8 % 4;
    BitInByte(b[n / 8], bit % 8);
  }

  /** Bit by bit, doubling `a` every time. */
  method MulBasic<E(!new)>(f: Field<E>, a: E, b: seq<byte>) returns (p: E)
    requires Laws(f)
    ensures p == Product(f, a, b, 8 * |b|)
  {
    hide BitSet, IsBitSet, Laws;
    var la := a;
    p := f.zero;
    var i := 0;
    while i < 8 * |b|
      invariant 0 <= i <= 8 * |b| && la == Power(f, a, i)
      invariant p == Product(f, a, b, i)
    {
      IsBitSetIs(i, b);
      AddLaws(f, p, p, p);
      if IsBitSet(i, b) {
        p := f.add(p, la);
      }
      la := f.mulx(la);
      i := i + 1;
    }
  }
}
