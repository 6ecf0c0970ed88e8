// The converse: whatever is read as a DEFLATE stream has been written by the rules.
module DeflateExactly {
  import opened BitStrings
  import opened Bytes
  import opened CanonicalCode
  import opened HuftTables
  import opened Sequences
  import opened Deflate
  import opened DeflateWriter
  import opened FixedCode
  import opened DeflateRoundTrip

  // ----- Codewords -----

  lemma MsbBits(s: Bits)
    ensures MsbOf(Msb(s), |s|) == s
  {
    MsbBound(s);
    MsbOfIs(Msb(s), |s|);
    MsbInjective(MsbOf(Msb(s), |s|), s);
  }

  lemma {:induction false} FoundFrom(cs: CodeSet, s: Bits, k: nat) returns (v: nat)
    requires WellFormed(cs) && k > 0 && DecodeFrom(cs, s, k).Code?
    ensures Matches(cs.lens, v, s) && DecodeFrom(cs, s, k) == SymbolFound(cs, v)
    decreases |s| + 1 - k
  {
    hide WellFormed, Matches;
    var r := Msb(s[..k]) - NextCode(cs.lens, k);
    if 0 <= r < Count(cs.lens, k) {
      v := Sym(cs.lens, k, r);
      SymMatches(cs.lens, s, k, r);
    } else {
      v := FoundFrom(cs, s, k + 1);
    }
  }

  /** What is decoded is the codeword of a symbol. */
  lemma Found(cs: CodeSet, s: Bits) returns (v: nat)
    requires WellFormed(cs) && DecodeFrom(cs, s, 1).Code?
    ensures v < |cs.lens| && 0 < cs.lens[v] <= |s| && Op(cs, v) != INVALID
    ensures DecodeFrom(cs, s, 1) == Code(Op(cs, v), Arg(cs, v), cs.lens[v])
    ensures s == Codeword(cs.lens, v) + s[cs.lens[v]..]
  {
    hide WellFormed, DecodeFrom, CodeOf;
    v := FoundFrom(cs, s, 1);
    MsbBits(s[..cs.lens[v]]);
  }

  // ----- Literals and matches -----

  /** One more token in front. */
  lemma InFront(lit: Lens, dist: Lens, out: seq<byte>, t: Token, ts: seq<Token>)
    requires LitLens(lit) && Shaped(t) && Writable(lit, dist, t) && (t.Copy? ==> 1 <= Distance(t) <= |out|)
    requires AllWritable(lit, dist, ts) && AllShaped(ts) && Reaches(After(out, t), ts)
    ensures AllWritable(lit, dist, [t] + ts) && AllShaped([t] + ts) && Reaches(out, [t] + ts)
    ensures Written(lit, dist, [t] + ts) == TokenBits(lit, dist, t) + Written(lit, dist, ts)
    ensures Expanded(out, [t] + ts) == Expanded(After(out, t), ts)
  {
    hide LitLens, Shaped, Writable, TokenBits, After, Distance;
    assert ([t] + ts)[1..] == ts;
  }

  lemma NoTokens(lit: Lens, dist: Lens, out: seq<byte>)
    requires LitLens(lit)
    ensures AllWritable(lit, dist, []) && AllShaped([]) && Reaches(out, []) && Expanded(out, []) == out
    ensures Written(lit, dist, []) == Codeword(lit, 256)
  {
  }

  lemma LengthSymbol(lit: Lens, v: nat)
    requires LitLens(lit) && 257 <= v < |lit| && Op(LitSet(lit), v) != INVALID
    ensures v - 257 < 29 && Op(LitSet(lit), v) == CPLEXT[v - 257] <= 5 && Arg(LitSet(lit), v) == CPLENS[v - 257]
  {
  }

  lemma DistanceSymbol(dist: Lens, d: nat)
    requires FormatDistLens(dist) && d < |dist| && Op(DistSet(dist), d) != INVALID
    ensures d < 30 && Op(DistSet(dist), d) == CPDEXT[d] <= 13 && Arg(DistSet(dist), d) == CPDIST[d]
  {
  }

  lemma Behind(a: Bits, s1: Bits, x: Bits, s2: Bits)
    requires s1 == x + s2
    ensures a + s1 == a + x + s2
  {
  }

  /** The first symbol. */
  lemma CodesStep(lit: Lens, dist: Lens, out: seq<byte>, s: Bits) returns (v: nat, s1: Bits)
    requires LitLens(lit) && FormatDistLens(dist) && Codes(lit, dist, out, s).Done?
    ensures v < |lit| && lit[v] > 0 && |s1| < |s| && s == Codeword(lit, v) + s1
    ensures v < 256 ==> Codes(lit, dist, out, s) == Codes(lit, dist, out + [v], s1)
    ensures v == 256 ==> Codes(lit, dist, out, s) == Done(out, s1, true)
    ensures v > 256 ==> v - 257 < 29 && CPLEXT[v - 257] <= |s1|
    ensures v > 256 ==>
      Codes(lit, dist, out, s) == Match(lit, dist, out, CPLENS[v - 257] + Val(s1[..CPLEXT[v - 257]]), s1[CPLEXT[v - 257]..])
  {
    hide DecodeFrom, Codeword, Match, Val, Op, Arg, CPLENS, CPLEXT;
    TableSizes();
    v := Found(LitSet(lit), s);
    s1 := s[lit[v]..];
    if v > 256 {
      LengthSymbol(lit, v);
    } else {
      PlainSymbol(lit, v);
    }
  }

  lemma TableSizes()
    ensures |CPLENS| == |CPLEXT| == 31 && |CPDIST| == |CPDEXT| == 30
  {
  }

  lemma PlainSymbol(lit: Lens, v: nat)
    requires LitLens(lit) && v <= 256
    ensures Op(LitSet(lit), v) == (if v < 256 then 16 else 15) && Arg(LitSet(lit), v) == v
  {
  }

  /** The distance. */
  lemma MatchStep(lit: Lens, dist: Lens, out: seq<byte>, len: nat, s: Bits) returns (d: nat, dx: Bits, s2: Bits)
    requires LitLens(lit) && FormatDistLens(dist) && Match(lit, dist, out, len, s).Done?
    ensures d < 30 && d < |dist| && dist[d] > 0 && |dx| == CPDEXT[d] && 1 <= CPDIST[d] + Val(dx) <= |out|
    ensures |s2| < |s| && s == Codeword(dist, d) + dx + s2
    ensures Match(lit, dist, out, len, s) == Codes(lit, dist, Copied(out, len, CPDIST[d] + Val(dx)), s2)
  {
    hide DecodeFrom, Codeword, Codes, Val, Copied, CopyMatch, Op, Arg, CPDIST, CPDEXT;
    TableSizes();
    d := Found(DistSet(dist), s);
    DistanceSymbol(dist, d);
    var s1 := s[dist[d]..];
    dx, s2 := s1[..CPDEXT[d]], s1[CPDEXT[d]..];
    CopyIsRepeated(out, len, CPDIST[d] + Val(dx));
    Behind(Codeword(dist, d), s1, dx, s2);
  }

  /** The first token. */
  lemma TokenStep(lit: Lens, dist: Lens, out: seq<byte>, s: Bits) returns (t: Token, s2: Bits)
    requires LitLens(lit) && FormatDistLens(dist) && Codes(lit, dist, out, s).Done?
    requires !(lit[256] > 0 && exists s1 :: s == Codeword(lit, 256) + s1 && Codes(lit, dist, out, s) == Done(out, s1, true))
    ensures Shaped(t) && Writable(lit, dist, t) && (t.Copy? ==> 1 <= Distance(t) <= |out|)
    ensures |s2| < |s| && s == TokenBits(lit, dist, t) + s2 && Codes(lit, dist, out, s) == Codes(lit, dist, After(out, t), s2)
  {
    hide Codes, Match, Codeword, Val, Copied, CPLENS, CPLEXT, CPDIST, CPDEXT;
    TableSizes();
    var v, s1 := CodesStep(lit, dist, out, s);
    if v < 256 {
      t, s2 := Literal(v), s1;
    } else {
      var l := v - 257;
      var lx, sm := s1[..CPLEXT[l]], s1[CPLEXT[l]..];
      var d, dx;
      d, dx, s2 := MatchStep(lit, dist, out, CPLENS[l] + Val(lx), sm);
      t := Copy(l, lx, d, dx);
      assert s1 == lx + sm;
      Assoc4(Codeword(lit, v), lx, Codeword(dist, d), dx, s2);
    }
  }

  lemma Assoc4(a: Bits, x: Bits, b: Bits, y: Bits, s: Bits)
    ensures a + (x + (b + y + s)) == a + x + b + y + s
  {
  }

  /** Literals and matches, and the end of the block. */
  lemma {:induction false} CodesWritten(lit: Lens, dist: Lens, out: seq<byte>, s: Bits) returns (ts: seq<Token>)
    requires LitLens(lit) && FormatDistLens(dist) && Codes(lit, dist, out, s).Done?
    ensures var o := Codes(lit, dist, out, s);
      && lit[256] > 0 && AllWritable(lit, dist, ts) && AllShaped(ts) && Reaches(out, ts)
      && s == Written(lit, dist, ts) + o.rest && o.out == Expanded(out, ts) && o.accepted
    decreases |s|
  {
    hide Codes, Codeword, AllWritable, AllShaped, Reaches, Expanded, Written, TokenBits, Shaped, Writable, After;
    if lit[256] > 0 && exists s1 :: s == Codeword(lit, 256) + s1 && Codes(lit, dist, out, s) == Done(out, s1, true) {
      ts := [];
      NoTokens(lit, dist, out);
    } else {
      var t, s2 := TokenStep(lit, dist, out, s);
      var rest := CodesWritten(lit, dist, After(out, t), s2);
      InFront(lit, dist, out, t, rest);
      ts := [t] + rest;
      Behind(TokenBits(lit, dist, t), s2, Written(lit, dist, rest), Codes(lit, dist, out, s).rest);
    }
  }

  // ----- Stored blocks -----

  lemma {:induction false} TakenIs(s: Bits, n: nat)
    requires 8 * n <= |s|
    ensures |TakeBytes(s, n)| == n && Stream(TakeBytes(s, n)) == s[..8 * n]
  {
    hide Val, BitsOf;
    if n == 0 {
      assert s[..0] == [];
    } else {
      TakenIs(s[8..], n - 1);
      var q := s[..8];
      ValBound(q);
      Pow2Eight();
      ValBits(q);
      StreamFirst(Val(q), TakeBytes(s[8..], n - 1));
      assert s[..8 * n] == q + s[8..][..8 * (n - 1)];
    }
  }

  lemma StoredWritten(out: seq<byte>, s: Bits) returns (fill: Bits, data: seq<byte>)
    requires Stored(out, s).Done?
    ensures |fill| == |s| % 8 && |data| < 65536 && s == PlainBits(fill, data) + Stored(out, s).rest
    ensures Stored(out, s).out == out + data && Stored(out, s).accepted
  {
    hide Val, BitsOf, Stream, TakeBytes;
    fill := s[..|s| % 8];
    var s1 := s[|s| % 8..];
    var a, b := s1[..16], s1[16..32];
    var n := Val(a);
    data := TakeBytes(s1[32..], n);
    TakenIs(s1[32..], n);
    ValBound(a);
    SmallPowers();
    ValBits(a);
    ValBits(b);
    assert s1[32 + 8 * n..] == s1[32..][8 * n..];
    assert s1[32..] == Stream(data) + s1[32 + 8 * n..];
    assert s1 == a + (b + s1[32..]);
    Fourfold(fill, a, b, Stream(data), s1[32 + 8 * n..]);
  }

  lemma Fourfold(f: Bits, a: Bits, b: Bits, d: Bits, rest: Bits)
    ensures f + (a + (b + (d + rest))) == f + (a + (b + d)) + rest
  {
  }

  // ----- Code lengths -----

  /** The first run. */
  lemma RunStep(cl: Lens, n: nat, have: Lens, s: Bits) returns (r: LengthRun, s1: Bits)
    requires LengthLens(cl) && |have| < n && Lengths(have) && ReadLens(cl, n, have, s).LensDone?
    ensures RunOk(cl, r) && (r.Again? ==> have != []) && |s1| < |s| && s == RunBits(cl, r) + s1
    ensures |Unrolled(have, r)| <= n && Lengths(Unrolled(have, r))
    ensures ReadLens(cl, n, have, s) == ReadLens(cl, n, Unrolled(have, r), s1)
  {
    hide DecodeFrom, Codeword, Val, BitsOf;
    var v := Found(LengthSet(cl), s);
    var t := s[cl[v]..];
    SmallPowers();
    if v < 16 {
      r, s1 := One(v), t;
      assert Codeword(cl, v) + [] == Codeword(cl, v);
    } else {
      var bits := if v == 16 then 2 else if v == 17 then 3 else 7;
      ValBound(t[..bits]);
      ValBits(t[..bits]);
      s1 := t[bits..];
      var k := Val(t[..bits]);
      r := if v == 16 then Again(3 + k) else if v == 17 then Few(3 + k) else Many(11 + k);
      Behind(Codeword(cl, v), t, t[..bits], s1);
    }
  }

  lemma {:induction false} RunsWritten(cl: Lens, n: nat, have: Lens, s: Bits) returns (rs: seq<LengthRun>)
    requires LengthLens(cl) && |have| <= n && Lengths(have) && ReadLens(cl, n, have, s).LensDone?
    ensures var o := ReadLens(cl, n, have, s);
      RunsOk(cl, rs) && Repeats(have, rs) && AllUnrolled(have, rs) == o.lens && s == RunsBits(cl, rs) + o.rest
    decreases |s|
  {
    hide RunOk, RunBits, Unrolled, DecodeFrom;
    if |have| == n {
      rs := [];
      AllRead(cl, n, have, s);
    } else {
      var r, s1 := RunStep(cl, n, have, s);
      var rest := RunsWritten(cl, n, Unrolled(have, r), s1);
      rs := [r] + rest;
      assert rs[1..] == rest;
      Behind(RunBits(cl, r), s1, RunsBits(cl, rest), ReadLens(cl, n, have, s).rest);
    }
  }

  lemma AllRead(cl: Lens, n: nat, have: Lens, s: Bits)
    requires LengthLens(cl) && |have| == n && Lengths(have)
    ensures ReadLens(cl, n, have, s) == LensDone(have, s) && RunsBits(cl, []) == [] && AllUnrolled(have, []) == have
  {
  }

  // ----- The code lengths' own lengths -----

  lemma {:induction false} OrderedWritten(s: Bits, nb: nat, k: nat)
    requires 3 * nb <= |s| && k <= nb <= 19
    ensures OrderedBits(HeaderLens(s, nb), k) == s[..3 * k]
  {
    hide BitsOf, Val, Order;
    if k > 0 {
      OrderedWritten(s, nb, k - 1);
      var j := k - 1;
      OrderIs(j);
      PlaceOfOrder(j);
      var q := s[3 * j..3 * j + 3];
      ValBits(q);
      assert s[..3 * k] == s[..3 * j] + q;
    } else {
      assert s[..0] == [];
    }
  }

  lemma PlaceOfOrder(j: nat)
    requires j < 19
    ensures Order(j) < 19 && PLACE[Order(j)] == j
  {
    OrderIs(j);
    BorderPlace(j);
  }

  lemma TrailingZeros(s: Bits, nb: nat)
    requires 3 * nb <= |s| && nb <= 19
    ensures Trailing(HeaderLens(s, nb), nb)
  {
    hide Order, Val;
    forall j {:trigger Order(j)} | nb <= j < 19
      ensures Order(j) < 19 && HeaderLens(s, nb)[Order(j)] == 0
    {
      PlaceOfOrder(j);
    }
  }

  // ----- Blocks -----

  lemma OwnWritten(out: seq<byte>, s: Bits) returns (b: Section)
    requires Dynamic(out, s).Done?
    ensures b.Own? && AllShaped(b.ts) && Reaches(out, b.ts) && Proper(b)
    ensures var o := Dynamic(out, s);
      s == OwnBits(b) + o.rest && o.out == Expanded(out, b.ts) && o.accepted == !Refused(b.lit, b.dist)
  {
    hide Val, BitsOf, HeaderLens, OrderedBits, Usable, ReadLens, Codes, RunsBits, DeflateWriter.Written, Expanded, Reaches, AllShaped,
      AllWritable, RunsOk, Trailing, AllUnrolled, Refused, MaxLen, LengthLens;
    SmallPowers();
    var x, y, z, h := s[..5], s[5..10], s[10..14], s[14..];
    ValBound(x);
    ValBound(y);
    ValBound(z);
    ValBits(x);
    ValBits(y);
    ValBits(z);
    var nl, nd, nb := 257 + Val(x), 1 + Val(y), 4 + Val(z);
    var cl := HeaderLens(h, nb);
    OrderedWritten(h, nb, nb);
    TrailingZeros(h, nb);
    var t := s[14 + 3 * nb..];
    var rs := RunsWritten(cl, nl + nd, [], t);
    var lens, w := ReadLens(cl, nl + nd, [], t).lens, ReadLens(cl, nl + nd, [], t).rest;
    var lit, dist := lens[..nl], lens[nl..];
    var ts := CodesWritten(lit, dist, out, w);
    b := Own(lit, dist, cl, nb, rs, ts);
    assert lit + dist == lens;
    var rest := Codes(lit, dist, out, w).rest;
    SixParts(x, y, z, h[..3 * nb], RunsBits(cl, rs), DeflateWriter.Written(lit, dist, ts), rest);
    assert h == h[..3 * nb] + t;
    assert s == x + (y + (z + h));
  }

  lemma SixParts(x: Bits, y: Bits, z: Bits, h: Bits, r: Bits, w: Bits, rest: Bits)
    ensures x + (y + (z + (h + (r + (w + rest))))) == x + (y + (z + (h + (r + w)))) + rest
  {
  }

  lemma FixedBlockWritten(out: seq<byte>, s: Bits) returns (b: Section)
    requires Codes(FixedLit(), FixedDist(), out, s).Done?
    ensures b.Fixed? && AllShaped(b.ts) && Reaches(out, b.ts)
    ensures var o := Codes(FixedLit(), FixedDist(), out, s);
      s == FixedBits(b.ts) + o.rest && o.out == Expanded(out, b.ts) && o.accepted
  {
    hide FixedLit, FixedDist, Codes, DeflateWriter.Written, AllWritable, AllShaped, Reaches, Expanded, FixedBits;
    var ts := CodesWritten(FixedLit(), FixedDist(), out, s);
    FixedWritten(ts);
    b := Fixed(ts);
  }

  lemma BlockWritten(kind: Bits, out: seq<byte>, s: Bits, at: nat) returns (b: Section)
    requires |kind| == 2 && Block(Val(kind), out, s).Done? && (at + |s|) % 8 == 0
    ensures Formed(b) && BlockOk(b, out, at) && kind == Kind(b)
    ensures var o := Block(Val(kind), out, s);
      s == BlockBits(b) + o.rest && o.out == Text(b, out) && o.accepted == !Declined(b)
  {
    hide Val, Stored, Dynamic, Codes, FixedLit, FixedDist, PlainBits, OwnBits, FixedBits, Proper, AllShaped, Reaches, Expanded, Kind,
      Refused;
    if Val(kind) == 0 {
      var fill, data := StoredWritten(out, s);
      b := Plain(fill, data);
      LeftOver(at, |s|);
    } else if Val(kind) == 1 {
      b := FixedBlockWritten(out, s);
    } else {
      b := OwnWritten(out, s);
    }
    KindIs(b);
    KindSize(b);
    ValInjective(kind, Kind(b));
  }

  lemma LeftOver(at: nat, n: nat)
    requires (at + n) % 8 == 0
    ensures n % 8 == Filler(at)
  {
  }

  /** One more block in front. */
  lemma BlockInFront(b: Section, bs: seq<Section>, out: seq<byte>, at: nat)
    requires Formed(b) && AllFormed(bs) && BlockOk(b, out, at + 3) && AllOk(bs, Text(b, out), at + 3 + |BlockBits(b)|)
    ensures AllFormed([b] + bs) && AllOk([b] + bs, out, at) && AllText([b] + bs, out) == AllText(bs, Text(b, out))
    ensures StreamBits([b] + bs) == [bs == []] + (Kind(b) + (BlockBits(b) + StreamBits(bs)))
  {
    hide Formed, BlockOk, Text, BlockBits, Kind;
    assert ([b] + bs)[1..] == bs;
  }

  /** Whatever is read has been written: the blocks of the stream. */
  lemma {:induction false} ReadIsWritten(out: seq<byte>, s: Bits, at: nat) returns (bs: seq<Section>)
    requires Blocks(out, s).Done? && (at + |s|) % 8 == 0
    ensures bs != [] && AllFormed(bs) && AllOk(bs, out, at)
    ensures var o := Blocks(out, s);
      && s == StreamBits(bs) + o.rest && o.out == AllText(bs, out)
      && (o.accepted <==> forall i :: 0 <= i < |bs| ==> !Declined(bs[i]))
    decreases |s|
  {
    hide Block, Val, Formed, BlockOk, Text, BlockBits, Kind, AllOk, AllText, StreamBits, Declined;
    var kind, t := s[1..3], s[3..];
    var o := Block(Val(kind), out, t);
    var b := BlockWritten(kind, out, t, at + 3);
    var more: seq<Section> := [];
    if s[0] {
      LastBlock(o.out, at + 3 + |BlockBits(b)|);
      Front(s, kind, BlockBits(b), [], o.rest);
    } else {
      more := ReadIsWritten(o.out, o.rest, at + 3 + |BlockBits(b)|);
      Front(s, kind, BlockBits(b), StreamBits(more), Blocks(o.out, o.rest).rest);
    }
    BlockInFront(b, more, out, at);
    bs := [b] + more;
    assert bs[0] == b && bs[1..] == more;
    assert forall i :: 0 < i < |bs| ==> bs[i] == more[i - 1];
  }

  lemma LastBlock(out: seq<byte>, at: nat)
    ensures AllFormed([]) && AllOk([], out, at) && AllText([], out) == out && StreamBits([]) == []
  {
  }

  lemma Front(s: Bits, kind: Bits, b: Bits, more: Bits, rest: Bits)
    requires |s| >= 3 && kind == s[1..3] && s[3..] == b + (more + rest)
    ensures s == [s[0]] + (kind + (b + more)) + rest
  {
    Assoc([s[0]], kind, b, more, rest);
    assert s == [s[0]] + (kind + s[3..]);
  }

  /** The streams that are read are exactly those that are written. */
  lemma ValidExactly(data: seq<byte>)
    ensures Blocks([], Stream(data)).Done? <==>
      exists bs, rest :: bs != [] && AllFormed(bs) && AllOk(bs, [], 0) && Stream(data) == StreamBits(bs) + rest
  {
    hide Blocks, Stream, StreamBits, AllOk, AllFormed, AllText, Declined;
    StreamLength(data);
    if Blocks([], Stream(data)).Done? {
      var bs := ReadIsWritten([], Stream(data), 0);
    } else if exists bs, rest :: bs != [] && AllFormed(bs) && AllOk(bs, [], 0) && Stream(data) == StreamBits(bs) + rest {
      var bs, rest :| bs != [] && AllFormed(bs) && AllOk(bs, [], 0) && Stream(data) == StreamBits(bs) + rest;
      BlocksRead(bs, [], 0, rest);
    }
  }
}
