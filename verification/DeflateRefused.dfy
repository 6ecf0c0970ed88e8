// Two valid DEFLATE streams that the program refuses.
module DeflateRefused {
  import opened BitStrings
  import opened Bytes
  import opened CanonicalCode
  import opened HuftTables
  import opened Sequences
  import opened Deflate
  import opened InflateStream

  const F: bool := false
  const T: bool := true

  /** Both streams use a code for code lengths in which 0 stands for the length 1, and 1 for a run of zeros (18). */
  const RUN_CODE: Lens := [0, 1] + Repeat<nat>(0, 16) + [1]

  lemma {:induction false} ZerosAdd(a: Lens, n: nat, g: nat)
    requires forall v :: 0 <= v < |a| ==> a[v] <= g
    ensures Kraft(a + Repeat<nat>(0, n), g) == Kraft(a, g)
    ensures g > 0 ==> Count(a + Repeat<nat>(0, n), g) == Count(a, g)
  {
    if n == 0 {
      assert a + Repeat<nat>(0, 0) == a;
    } else {
      assert (a + Repeat<nat>(0, n))[..|a| + n - 1] == a + Repeat<nat>(0, n - 1);
      ZerosAdd(a, n - 1, g);
    }
  }

  lemma OneAdds(a: Lens)
    requires forall v :: 0 <= v < |a| ==> a[v] <= 1
    ensures Kraft(a + [1], 1) == Kraft(a, 1) + 1 && Count(a + [1], 1) == Count(a, 1) + 1
    ensures MaxLen(a + [1]) == 1
  {
    hide MaxLen;
    MaxLenIs(a + [1], 1, |a|);
    OneMore(a);
  }

  lemma OneMore(a: Lens)
    requires forall v :: 0 <= v < |a| ==> a[v] <= 1
    ensures Kraft(a + [1], 1) == Kraft(a, 1) + 1 && Count(a + [1], 1) == Count(a, 1) + 1
  {
    hide MaxLen;
    assert (a + [1])[..|a|] == a;
    assert Pow2(0) == 1;
  }

  lemma RunCode()
    ensures LengthLens(RUN_CODE) && Usable(RUN_CODE) && RUN_CODE[1] == RUN_CODE[18] == 1
    ensures Count(RUN_CODE[..1], 1) == 0 && Count(RUN_CODE[..18], 1) == 1
  {
    OneAdds([0]);
    assert [0] + [1] == [0, 1] && [0, 1][..1] == [0] && [0][..0] == [];
    ZerosAdd([0, 1], 16, 1);
    OneAdds([0, 1] + Repeat<nat>(0, 16));
    assert RUN_CODE[..1] == [0] && RUN_CODE[..18] == [0, 1] + Repeat<nat>(0, 16);
    assert Pow2(1) == 2;
  }

  /** A code of one bit. */
  lemma OneBit(cs: CodeSet, v: nat, s: Bits)
    requires WellFormed(cs) && v < |cs.lens| && cs.lens[v] == 1 && s != []
    requires Count(cs.lens[..v], 1) == if s[0] then 1 else 0
    ensures DecodeFrom(cs, s, 1) == SymbolFound(cs, v)
  {
    assert s[..1] == [s[0]] && s[..1][..0] == [];
    assert Msb(s[..1]) == if s[0] then 1 else 0;
    DecodeMatch(cs, s, v, 1);
  }

  lemma NextSymbol(s: Bits)
    requires s != []
    ensures LengthLens(RUN_CODE) && DecodeFrom(LengthSet(RUN_CODE), s, 1) == Code(16, if s[0] then 18 else 1, 1)
  {
    RunCode();
    var cs, v := LengthSet(RUN_CODE), if s[0] then 18 else 1;
    OneBit(cs, v, s);
    assert Op(cs, v) == 16;
    assert Arg(cs, v) == v;
  }

  /** The length 1. */
  lemma OneStep(n: nat, have: Lens, rest: Bits)
    requires LengthLens(RUN_CODE) && |have| < n && forall v :: 0 <= v < |have| ==> have[v] < 16
    ensures ReadLens(RUN_CODE, n, have, [F] + rest) == ReadLens(RUN_CODE, n, have + [1], rest)
  {
    hide DecodeFrom;
    NextSymbol([F] + rest);
    assert ([F] + rest)[1..] == rest;
  }

  /** A run of zeros. */
  lemma RunStep(n: nat, have: Lens, x: Bits, rest: Bits)
    requires LengthLens(RUN_CODE) && |x| == 7 && |have| + 11 + Val(x) <= n && forall v :: 0 <= v < |have| ==> have[v] < 16
    ensures ReadLens(RUN_CODE, n, have, [T] + x + rest) == ReadLens(RUN_CODE, n, have + Repeat<nat>(0, 11 + Val(x)), rest)
  {
    hide DecodeFrom, Val;
    var s := [T] + x + rest;
    NextSymbol(s);
    assert s[1..] == x + rest && (x + rest)[..7] == x && (x + rest)[7..] == rest;
  }

  const RUN_138: Bits := [T, T, T, T, T, T, T]
  const RUN_118: Bits := [T, T, F, T, F, T, T]
  const RUN_30: Bits := [T, T, F, F, T, F, F]
  const RUN_11: Bits := [F, F, F, F, F, F, F]

  lemma Three(a: bool, b: bool, c: bool)
    ensures Val([a, b, c]) == Bit(a) + 2 * Bit(b) + 4 * Bit(c)
  {
    assert [a, b, c][1..] == [b, c] && [b, c][1..] == [c] && [c][1..] == [];
    assert Val([c]) == Bit(c) && Val([b, c]) == Bit(b) + 2 * Bit(c);
  }

  lemma Five(a: bool, b: bool, c: bool, d: bool, e: bool)
    ensures Val([a, b, c, d, e]) == Bit(a) + 2 * Bit(b) + 4 * Val([c, d, e])
  {
    assert [a, b, c, d, e][1..] == [b, c, d, e] && [b, c, d, e][1..] == [c, d, e];
  }

  lemma Seven(a: bool, b: bool, c: bool, d: bool, e: bool, f: bool, g: bool)
    ensures Val([a, b, c, d, e, f, g]) == Bit(a) + 2 * Bit(b) + 4 * Val([c, d, e, f, g])
  {
    assert [a, b, c, d, e, f, g][1..] == [b, c, d, e, f, g] && [b, c, d, e, f, g][1..] == [c, d, e, f, g];
  }

  lemma RunLengths()
    ensures Val(RUN_138) == 127 && Val(RUN_118) == 107 && Val(RUN_30) == 19 && Val(RUN_11) == 0
  {
    hide Val;
    Three(T, T, T);
    Five(T, T, T, T, T);
    Seven(T, T, T, T, T, T, T);
    Three(F, T, T);
    Five(F, T, F, T, T);
    Seven(T, T, F, T, F, T, T);
    Three(T, F, F);
    Five(F, F, T, F, F);
    Seven(T, T, F, F, T, F, F);
    Three(F, F, F);
    Five(F, F, F, F, F);
    Seven(F, F, F, F, F, F, F);
  }

  /** Lengths of a code with no literal, whose end-of-block code is 0. */
  const END_ONLY: Lens := Repeat<nat>(0, 256) + [1]

  const LITERALS: Bits := ([T] + RUN_138) + ([T] + RUN_118) + [F]

  lemma ReadLiterals(n: nat, rest: Bits)
    requires LengthLens(RUN_CODE) && n >= 257
    ensures ReadLens(RUN_CODE, n, [], LITERALS + rest) == ReadLens(RUN_CODE, n, END_ONLY, rest)
  {
    hide ReadLens, Val;
    RunLengths();
    assert LITERALS + rest == [T] + RUN_138 + (([T] + RUN_118) + ([F] + rest));
    RunStep(n, [], RUN_138, ([T] + RUN_118) + ([F] + rest));
    RunStep(n, [] + Repeat<nat>(0, 138), RUN_118, [F] + rest);
    assert [] + Repeat<nat>(0, 138) + Repeat<nat>(0, 118) == Repeat<nat>(0, 256);
    OneStep(n, Repeat<nat>(0, 256), rest);
  }

  /** The code lengths of RUN_CODE in their permuted order: the third and the last of 18 are 1. */
  const HEADER: Bits := Zeros(6) + [T] + Zeros(44) + [T] + Zeros(2)

  lemma HeaderBits(i: nat)
    requires i < 54
    ensures |HEADER| == 54 && HEADER[i] == (i == 6 || i == 51)
  {
  }

  lemma HeaderIs(rest: Bits)
    ensures |HEADER| == 54 && HeaderLens(HEADER + rest, 18) == RUN_CODE
  {
    hide Val;
    HeaderBits(0);
    forall v | 0 <= v < 19
      ensures HeaderLen(HEADER + rest, 18, v) == RUN_CODE[v]
    {
      var j := PLACE[v];
      BorderPlace(v);
      if j < 18 {
        var q := (HEADER + rest)[3 * j..3 * j + 3];
        HeaderBits(3 * j);
        HeaderBits(3 * j + 1);
        HeaderBits(3 * j + 2);
        assert q == [j == 2 || j == 17, F, F];
        Three(j == 2 || j == 17, F, F);
      }
    }
  }

  lemma EndOnly(n: nat)
    ensures LitLens(END_ONLY) && MaxLen(END_ONLY + Repeat<nat>(0, n)) == 1 && Kraft(END_ONLY + Repeat<nat>(0, n), 1) == 1
    ensures Count((END_ONLY + Repeat<nat>(0, n))[..256], 1) == 0
  {
    var z := Repeat<nat>(0, 256);
    assert [] + z == z;
    ZerosAdd([], 256, 1);
    OneAdds(z);
    ZerosAdd(END_ONLY, n, 1);
    MaxLenIs(END_ONLY + Repeat<nat>(0, n), 1, 256);
    assert (END_ONLY + Repeat<nat>(0, n))[..256] == z;
  }

  /** Data that is only the end-of-block code. */
  lemma JustEnd(n: nat, dist: Lens, out: seq<byte>, rest: Bits)
    requires n <= 30 && FormatDistLens(dist)
    ensures var lit := END_ONLY + Repeat<nat>(0, n);
      LitLens(lit) && Usable(lit) && Codes(lit, dist, out, [F] + rest) == Done(out, rest, true)
  {
    hide DecodeFrom, Kraft, MaxLen, Count;
    var lit := END_ONLY + Repeat<nat>(0, n);
    EndOnly(n);
    assert Pow2(1) == 2;
    OneBit(LitSet(lit), 256, [F] + rest);
    assert ([F] + rest)[1..] == rest;
  }

  /** A dynamic block with these counts, whose code lengths behind the literals' are read from `more`. */
  lemma BlockIs(counts: Bits, nl: nat, nd: nat, more: Bits, lens: Lens, out: seq<byte>, rest: Bits)
    requires |counts| == 14 && nl == 257 + Val(counts[..5]) <= 286 && nd == 1 + Val(counts[5..10]) && Val(counts[10..14]) == 14
    requires LengthLens(RUN_CODE) && |lens| == nl + nd && forall v :: 0 <= v < |lens| ==> lens[v] < 16
    requires ReadLens(RUN_CODE, nl + nd, END_ONLY, more + ([F] + rest)) == LensDone(lens, [F] + rest)
    ensures LitLens(lens[..nl]) && FormatDistLens(lens[nl..])
    ensures Dynamic(out, counts + HEADER + LITERALS + more + [F] + rest) == DynamicCodes(lens[..nl], lens[nl..], out, [F] + rest)
  {
    hide Val, ReadLens, DynamicCodes, HeaderLens, Usable;
    FiveBits(counts[5..10]);
    RunCode();
    HeaderIs(LITERALS + (more + ([F] + rest)));
    var s := counts + HEADER + LITERALS + more + [F] + rest;
    assert s[..5] == counts[..5] && s[5..10] == counts[5..10] && s[10..14] == counts[10..14];
    assert s[14..] == HEADER + (LITERALS + (more + ([F] + rest)));
    assert s[14 + 54..] == LITERALS + (more + ([F] + rest));
    ReadLiterals(nl + nd, more + ([F] + rest));
  }

  const COUNTS_31: Bits := [F, F, F, F, F] + [F, T, T, T, T] + [F, T, T, T]
  const MORE_31: Bits := [F] + ([T] + RUN_30)

  /** A block with 31 distance codes, of which one is used. */
  lemma Block31(out: seq<byte>, rest: Bits)
    ensures Dynamic(out, COUNTS_31 + HEADER + LITERALS + MORE_31 + [F] + rest) == Done(out, rest, false)
  {
    hide Val, ReadLens, Codes, Usable;
    RunCode();
    Counts31();
    RunLengths();
    var dist := [1] + Repeat<nat>(0, 30);
    var lens := END_ONLY + dist;
    assert MORE_31 + ([F] + rest) == [F] + ([T] + RUN_30 + ([F] + rest));
    OneStep(288, END_ONLY, [T] + RUN_30 + ([F] + rest));
    RunStep(288, END_ONLY + [1], RUN_30, [F] + rest);
    assert END_ONLY + [1] + Repeat<nat>(0, 30) == lens;
    AllRead(288, lens, [F] + rest);
    BlockIs(COUNTS_31, 257, 31, MORE_31, lens, out, rest);
    assert lens[..257] == END_ONLY + Repeat<nat>(0, 0) && lens[257..] == dist;
    JustEnd(0, dist, out, rest);
    OneDistance();
  }

  /** 14 in four bits. */
  lemma Fourteen()
    ensures Val([F, T, T, T]) == 14
  {
    assert [F, T, T, T][1..] == [T, T, T];
    Three(T, T, T);
  }

  lemma Counts31()
    ensures Val(COUNTS_31[..5]) == 0 && Val(COUNTS_31[5..10]) == 30 && Val(COUNTS_31[10..14]) == 14
  {
    hide Val;
    assert COUNTS_31[..5] == [F, F, F, F, F] && COUNTS_31[5..10] == [F, T, T, T, T] && COUNTS_31[10..14] == [F, T, T, T];
    Three(F, F, F);
    Five(F, F, F, F, F);
    Three(T, T, T);
    Five(F, T, T, T, T);
    Fourteen();
  }

  lemma AllRead(n: nat, lens: Lens, rest: Bits)
    requires LengthLens(RUN_CODE) && |lens| == n && forall v :: 0 <= v < n ==> lens[v] < 16
    ensures ReadLens(RUN_CODE, n, lens, rest) == LensDone(lens, rest)
  {
  }

  lemma EmptyKraft()
    ensures Kraft([], 1) == 0 && Pow2(1) == 2
  {
  }

  lemma OneDistance()
    ensures Usable([1] + Repeat<nat>(0, 30))
  {
    hide MaxLen, Count, Kraft, Pow2;
    EmptyKraft();
    OneAdds([]);
    assert [] + [1] == [1];
    ZerosAdd([1], 30, 1);
    MaxLenIs([1] + Repeat<nat>(0, 30), 1, 0);
  }

  const COUNTS_NONE: Bits := [F, T, F, T, F] + [F, F, F, F, F] + [F, T, T, T]
  const MORE_NONE: Bits := [T] + RUN_11

  /** A block with symbols for lengths, none of them used, and no distance code. */
  lemma BlockNone(out: seq<byte>, rest: Bits)
    ensures Dynamic(out, COUNTS_NONE + HEADER + LITERALS + MORE_NONE + [F] + rest) == Done(out, rest, false)
  {
    hide Val, ReadLens, Codes, Usable;
    RunCode();
    CountsNone();
    RunLengths();
    var lens := END_ONLY + Repeat<nat>(0, 11);
    RunStep(268, END_ONLY, RUN_11, [F] + rest);
    AllRead(268, lens, [F] + rest);
    BlockIs(COUNTS_NONE, 267, 1, MORE_NONE, lens, out, rest);
    assert lens[..267] == END_ONLY + Repeat<nat>(0, 10) && lens[267..] == [0];
    JustEnd(10, [0], out, rest);
    assert [0][..0] == [];
  }

  lemma CountsNone()
    ensures Val(COUNTS_NONE[..5]) == 10 && Val(COUNTS_NONE[5..10]) == 0 && Val(COUNTS_NONE[10..14]) == 14
  {
    hide Val;
    assert COUNTS_NONE[..5] == [F, T, F, T, F] && COUNTS_NONE[5..10] == [F, F, F, F, F] && COUNTS_NONE[10..14] == [F, T, T, T];
    Three(F, T, F);
    Five(F, T, F, T, F);
    Three(F, F, F);
    Five(F, F, F, F, F);
    Fourteen();
  }

  // ----- Whole streams -----

  lemma Two()
    ensures Val([F, T]) == 2
  {
    assert [F, T][1..] == [T] && [T][1..] == [];
    assert Val([T]) == 1;
  }

  /** One last dynamic block, filled up to a byte. */
  function Alone(block: Bits): Bits {
    var s := [T, F, T] + block;
    s + Zeros(7 - (|s| + 7) % 8)
  }

  lemma AloneIs(block: Bits)
    requires forall rest :: Dynamic([], block + rest) == Done([], rest, false)
    ensures |Alone(block)| % 8 == 0
    ensures var o := Blocks([], Alone(block)); o.Done? && o.out == [] && !o.accepted
  {
    hide Dynamic;
    var s := [T, F, T] + block;
    var z := Zeros(7 - (|s| + 7) % 8);
    assert Alone(block) == [T, F, T] + (block + z);
    assert ([T, F, T] + (block + z))[3..] == block + z;
    assert ([T, F, T] + (block + z))[1..3] == [F, T];
    Two();
    assert Dynamic([], block + z) == Done([], z, false);
    assert Alone(block)[0];
  }

  const BLOCK_31: Bits := COUNTS_31 + HEADER + LITERALS + MORE_31 + [F]
  const BLOCK_NONE: Bits := COUNTS_NONE + HEADER + LITERALS + MORE_NONE + [F]

  /** The empty text as a stream with 31 distance codes, and as one with symbols for lengths but no distance code:
      both are valid, neither is accepted. */
  lemma RefusedStreams()
    ensures var o := Blocks([], Stream(Pack(Alone(BLOCK_31)))); o.Done? && o.out == [] && !o.accepted
    ensures var o := Blocks([], Stream(Pack(Alone(BLOCK_NONE)))); o.Done? && o.out == [] && !o.accepted
  {
    hide Dynamic, Blocks, Alone, Pack, Stream;
    forall rest
      ensures Dynamic([], BLOCK_31 + rest) == Done([], rest, false)
      ensures Dynamic([], BLOCK_NONE + rest) == Done([], rest, false)
    {
      Block31([], rest);
      BlockNone([], rest);
    }
    AloneIs(BLOCK_31);
    AloneIs(BLOCK_NONE);
    StreamPack(Alone(BLOCK_31));
    StreamPack(Alone(BLOCK_NONE));
  }
}
