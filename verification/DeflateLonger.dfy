// Bytes that follow a finished DEFLATE stream do not change what it decodes to.
module DeflateLonger {
  import opened BitStrings
  import opened Bytes
  import opened CanonicalCode
  import opened HuftTables
  import opened Sequences
  import opened HuftCodes
  import opened Deflate

  function More(o: Outcome, r: Bits): Outcome
    requires o.Done?
  {
    Done(o.out, o.rest + r, o.accepted)
  }

  lemma {:induction false} CodesLonger(lit: Lens, dist: Lens, out: seq<byte>, s: Bits, r: Bits)
    requires LitLens(lit) && FormatDistLens(dist) && Codes(lit, dist, out, s).Done?
    ensures Codes(lit, dist, out, s + r) == More(Codes(lit, dist, out, s), r)
    decreases |s|
  {
    hide DecodeFrom, Val, LitSet, DistSet;
    DecodeLonger(LitSet(lit), s, r, 1);
    var found := DecodeFrom(LitSet(lit), s, 1);
    var s1 := s[found.used..];
    assert (s + r)[found.used..] == s1 + r;
    if found.op == 16 {
      CodesLonger(lit, dist, out + [found.arg % 256], s1, r);
    } else if found.op != 15 {
      assert (s1 + r)[..found.op] == s1[..found.op] && (s1 + r)[found.op..] == s1[found.op..] + r;
      MatchLonger(lit, dist, out, found.arg + Val(s1[..found.op]), s1[found.op..], r);
    }
  }

  lemma {:induction false} MatchLonger(lit: Lens, dist: Lens, out: seq<byte>, len: nat, s: Bits, r: Bits)
    requires LitLens(lit) && FormatDistLens(dist) && Match(lit, dist, out, len, s).Done?
    ensures Match(lit, dist, out, len, s + r) == More(Match(lit, dist, out, len, s), r)
    decreases |s|
  {
    hide DecodeFrom, Val, LitSet, DistSet;
    DecodeLonger(DistSet(dist), s, r, 1);
    var found := DecodeFrom(DistSet(dist), s, 1);
    var s1 := s[found.used..];
    assert (s + r)[found.used..] == s1 + r;
    assert (s1 + r)[..found.op] == s1[..found.op] && (s1 + r)[found.op..] == s1[found.op..] + r;
    CodesLonger(lit, dist, CopyMatch(out, len, found.arg + Val(s1[..found.op])), s1[found.op..], r);
  }

  lemma {:induction false} TakeBytesLonger(s: Bits, r: Bits, n: nat)
    requires 8 * n <= |s|
    ensures TakeBytes(s + r, n) == TakeBytes(s, n)
  {
    if n > 0 {
      assert (s + r)[..8] == s[..8] && (s + r)[8..] == s[8..] + r;
      TakeBytesLonger(s[8..], r, n - 1);
    }
  }

  lemma StoredLonger(out: seq<byte>, s: Bits, r: Bits)
    requires |r| % 8 == 0 && Stored(out, s).Done?
    ensures Stored(out, s + r) == More(Stored(out, s), r)
  {
    hide Val, TakeBytes;
    var s1 := s[|s| % 8..];
    var n := Val(s1[..16]);
    assert (s + r)[|s + r| % 8..] == s1 + r;
    SliceLonger(s1, r, 0, 16);
    SliceLonger(s1, r, 16, 32);
    SliceLonger(s1, r, 32, 32);
    SliceLonger(s1, r, 32 + 8 * n, 32 + 8 * n);
    TakeBytesLonger(s1[32..], r, n);
  }

  lemma SliceLonger(s: Bits, r: Bits, i: nat, j: nat)
    requires i <= j <= |s|
    ensures (s + r)[i..j] == s[i..j] && (s + r)[..j] == s[..j] && (s + r)[j..] == s[j..] + r
  {
  }

  ghost predicate LensLonger(o: LensOutcome, o': LensOutcome, r: Bits) {
    o.LensDone? ==> o' == LensDone(o.lens, o.rest + r)
  }

  lemma {:induction false} ReadLensLonger(cl: Lens, n: nat, have: Lens, s: Bits, r: Bits)
    requires LengthLens(cl) && |have| <= n && forall v :: 0 <= v < |have| ==> have[v] < 16
    ensures LensLonger(ReadLens(cl, n, have, s), ReadLens(cl, n, have, s + r), r)
    decreases |s|
  {
    hide DecodeFrom, Val, LengthSet;
    var found := DecodeFrom(LengthSet(cl), s, 1);
    if |have| < n && found.Code? {
      DecodeLonger(LengthSet(cl), s, r, 1);
      var s1 := s[found.used..];
      assert (s + r)[found.used..] == s1 + r;
      if found.arg < 16 {
        ReadLensLonger(cl, n, have + [found.arg], s1, r);
      } else if found.arg == 16 {
        if have != [] { ReadRunLonger(cl, n, have, s1, r, have[|have| - 1], 2, 3); }
      } else if found.arg == 17 {
        ReadRunLonger(cl, n, have, s1, r, 0, 3, 3);
      } else {
        ReadRunLonger(cl, n, have, s1, r, 0, 7, 11);
      }
    }
  }

  lemma {:induction false} ReadRunLonger(cl: Lens, n: nat, have: Lens, s: Bits, r: Bits, v: nat, bits: nat, least: nat)
    requires LengthLens(cl) && |have| <= n && v < 16 && bits > 0 && forall v :: 0 <= v < |have| ==> have[v] < 16
    ensures LensLonger(ReadRun(cl, n, have, s, v, bits, least), ReadRun(cl, n, have, s + r, v, bits, least), r)
    decreases |s|, 1
  {
    hide DecodeFrom, Val, LengthSet;
    if bits <= |s| {
      assert (s + r)[..bits] == s[..bits] && (s + r)[bits..] == s[bits..] + r;
      var count := least + Val(s[..bits]);
      if |have| + count <= n {
        ReadLensLonger(cl, n, have + Repeat<nat>(v, count), s[bits..], r);
      }
    }
  }

  lemma HeaderLonger(s: Bits, r: Bits, nb: nat)
    requires 3 * nb <= |s| && nb <= 19
    ensures HeaderLens(s + r, nb) == HeaderLens(s, nb)
  {
    forall v | 0 <= v < 19
      ensures HeaderLen(s + r, nb, v) == HeaderLen(s, nb, v)
    {
      BorderPlace(v);
      var j := PLACE[v];
      if j < nb { assert (s + r)[3 * j..3 * j + 3] == s[3 * j..3 * j + 3]; }
    }
  }

  lemma DynamicLonger(out: seq<byte>, s: Bits, r: Bits)
    requires Dynamic(out, s).Done?
    ensures Dynamic(out, s + r) == More(Dynamic(out, s), r)
  {
    hide Val, Usable, ReadLens, HeaderLens, Codes, Kraft, MaxLen;
    var nl, nd, nb := 257 + Val(s[..5]), 1 + Val(s[5..10]), 4 + Val(s[10..14]);
    assert (s + r)[..5] == s[..5] && (s + r)[5..10] == s[5..10] && (s + r)[10..14] == s[10..14];
    assert (s + r)[14..] == s[14..] + r && (s + r)[14 + 3 * nb..] == s[14 + 3 * nb..] + r;
    FiveBits(s[5..10]);
    HeaderLonger(s[14..], r, nb);
    var cl := HeaderLens(s[14..], nb);
    ReadLensLonger(cl, nl + nd, [], s[14 + 3 * nb..], r);
    var o := ReadLens(cl, nl + nd, [], s[14 + 3 * nb..]);
    CodesLonger(o.lens[..nl], o.lens[nl..], out, o.rest, r);
  }

  lemma BlockLonger(kind: nat, out: seq<byte>, s: Bits, r: Bits)
    requires |r| % 8 == 0 && Block(kind, out, s).Done?
    ensures Block(kind, out, s + r) == More(Block(kind, out, s), r)
  {
    hide Codes, Dynamic, Stored, FixedLit, FixedDist;
    if kind == 0 {
      StoredLonger(out, s, r);
    } else if kind == 1 {
      CodesLonger(FixedLit(), FixedDist(), out, s, r);
    } else {
      DynamicLonger(out, s, r);
    }
  }

  lemma {:induction false} BlocksLonger(out: seq<byte>, s: Bits, r: Bits)
    requires |r| % 8 == 0 && Blocks(out, s).Done?
    ensures Blocks(out, s + r) == More(Blocks(out, s), r)
    decreases |s|
  {
    hide Block, Val;
    assert (s + r)[1..3] == s[1..3] && (s + r)[3..] == s[3..] + r && (s + r)[0] == s[0];
    BlockLonger(Val(s[1..3]), out, s[3..], r);
    var o := Block(Val(s[1..3]), out, s[3..]);
    if !s[0] {
      BlocksLonger(o.out, o.rest, r);
    }
  }

  lemma {:induction false} StreamAppend(data: seq<byte>, more: seq<byte>)
    ensures Stream(data + more) == Stream(data) + Stream(more)
  {
    if data == [] {
      assert data + more == more;
    } else {
      assert (data + more)[1..] == data[1..] + more;
      StreamAppend(data[1..], more);
    }
  }

  /** A stream that ends within `data` decodes to the same with a byte behind it, and leaves that byte. */
  lemma StreamThenByte(data: seq<byte>, after: byte)
    requires Blocks([], Stream(data)).Done?
    ensures var o := Blocks([], Stream(data + [after]));
      o.Done? && o.out == Blocks([], Stream(data)).out && o.accepted == Blocks([], Stream(data)).accepted && |o.rest| >= 8
  {
    StreamAppend(data, [after]);
    StreamLength([after]);
    BlocksLonger([], Stream(data), Stream([after]));
  }
}
