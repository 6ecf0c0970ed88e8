// Whole streams: stored, fixed and dynamic blocks, written one after the other, are read back as their text.
module DeflateRoundTrip {
  import opened BitStrings
  import opened Bytes
  import opened CanonicalCode
  import opened HuftTables
  import opened Sequences
  import opened Deflate
  import opened DeflateWriter
  import opened FixedCode
  import opened InflateStream

  // ----- Code lengths -----

  /** Section 3.2.7: a length as it is (0 to 15), the length before it 3 to 6 times (16), or 3 to 10 (17) or 11 to 138
      zeros (18). */
  datatype LengthRun = One(v: nat) | Again(n: nat) | Few(n: nat) | Many(n: nat)

  function RunSymbol(r: LengthRun): nat {
    match r
    case One(v) => v
    case Again(_) => 16
    case Few(_) => 17
    case Many(_) => 18
  }

  function RunExtra(r: LengthRun): Bits {
    match r
    case One(_) => []
    case Again(n) => if n < 3 then [] else BitsOf(n - 3, 2)
    case Few(n) => if n < 3 then [] else BitsOf(n - 3, 3)
    case Many(n) => if n < 11 then [] else BitsOf(n - 11, 7)
  }

  predicate RunOk(cl: Lens, r: LengthRun)
    requires LengthLens(cl)
  {
    && (r.One? ==> r.v < 16) && (r.Again? ==> 3 <= r.n <= 6) && (r.Few? ==> 3 <= r.n <= 10) && (r.Many? ==> 11 <= r.n <= 138)
    && cl[RunSymbol(r)] > 0
  }

  predicate RunsOk(cl: Lens, rs: seq<LengthRun>)
    requires LengthLens(cl)
  {
    forall i :: 0 <= i < |rs| ==> RunOk(cl, rs[i])
  }

  function RunBits(cl: Lens, r: LengthRun): Bits
    requires LengthLens(cl) && RunOk(cl, r)
  {
    Codeword(cl, RunSymbol(r)) + RunExtra(r)
  }

  function RunsBits(cl: Lens, rs: seq<LengthRun>): Bits
    requires LengthLens(cl) && RunsOk(cl, rs)
  {
    if rs == [] then [] else RunBits(cl, rs[0]) + RunsBits(cl, rs[1..])
  }

  function Unrolled(have: Lens, r: LengthRun): Lens {
    match r
    case One(v) => have + [v]
    case Again(n) => if have == [] then [] else have + Repeat<nat>(have[|have| - 1], n)
    case Few(n) => have + Repeat<nat>(0, n)
    case Many(n) => have + Repeat<nat>(0, n)
  }

  function AllUnrolled(have: Lens, rs: seq<LengthRun>): Lens
    decreases |rs|
  {
    if rs == [] then have else AllUnrolled(Unrolled(have, rs[0]), rs[1..])
  }

  /** There is a length to repeat. */
  predicate Repeats(have: Lens, rs: seq<LengthRun>) { rs != [] && rs[0].Again? ==> have != [] }

  lemma ValOfBits(v: nat, n: nat)
    requires v < Pow2(n)
    ensures Val(BitsOf(v, n)) == v
  {
    BitsOfVal(v, n);
  }

  lemma SymbolRead(cl: Lens, v: nat, rest: Bits)
    requires LengthLens(cl) && v < 19 && cl[v] > 0 && Fits(cl)
    ensures DecodeFrom(LengthSet(cl), Codeword(cl, v) + rest, 1) == Code(16, v, cl[v])
    ensures (Codeword(cl, v) + rest)[cl[v]..] == rest
  {
    hide Fits, Codeword, DecodeFrom;
    DecodesSymbol(LengthSet(cl), v, rest);
  }

  predicate Lengths(have: Lens) { forall v :: 0 <= v < |have| ==> have[v] < 16 }

  lemma RepeatRead(cl: Lens, n: nat, have: Lens, v: nat, bits: nat, least: nat, count: nat, rest: Bits)
    requires LengthLens(cl) && Lengths(have) && v < 16 && bits > 0 && least <= count < least + Pow2(bits)
    requires |have| + count <= n
    ensures Lengths(have + Repeat<nat>(v, count))
    ensures ReadRun(cl, n, have, BitsOf(count - least, bits) + rest, v, bits, least) ==
      ReadLens(cl, n, have + Repeat<nat>(v, count), rest)
  {
    hide ReadLens, BitsOf, Val;
    ValOfBits(count - least, bits);
    var s := BitsOf(count - least, bits) + rest;
    assert s[..bits] == BitsOf(count - least, bits) && s[bits..] == rest;
  }

  lemma RunRead(cl: Lens, n: nat, have: Lens, r: LengthRun, rest: Bits)
    requires LengthLens(cl) && Fits(cl) && RunOk(cl, r) && Lengths(have)
    requires |Unrolled(have, r)| <= n && |have| < n && (r.Again? ==> have != [])
    ensures Lengths(Unrolled(have, r)) && ReadLens(cl, n, have, RunBits(cl, r) + rest) == ReadLens(cl, n, Unrolled(have, r), rest)
  {
    hide DecodeFrom, Codeword, Fits, ReadRun, BitsOf, LengthSet;
    SmallPowers();
    assert RunBits(cl, r) + rest == Codeword(cl, RunSymbol(r)) + (RunExtra(r) + rest);
    SymbolRead(cl, RunSymbol(r), RunExtra(r) + rest);
    match r
    case One(v) =>
      assert RunExtra(r) + rest == rest;
    case Again(k) => RepeatRead(cl, n, have, have[|have| - 1], 2, 3, k, rest);
    case Few(k) => RepeatRead(cl, n, have, 0, 3, 3, k, rest);
    case Many(k) => RepeatRead(cl, n, have, 0, 7, 11, k, rest);
  }

  lemma {:induction false} Growing(have: Lens, rs: seq<LengthRun>)
    requires Repeats(have, rs)
    requires forall i :: 0 <= i < |rs| && !rs[i].One? ==> rs[i].n > 0
    ensures |have| <= |AllUnrolled(have, rs)| && (rs != [] ==> |have| < |Unrolled(have, rs[0])| <= |AllUnrolled(have, rs)|)
    decreases |rs|
  {
    if rs != [] {
      Growing(Unrolled(have, rs[0]), rs[1..]);
    }
  }

  /** Any run-length coding of the code lengths is read back. */
  lemma {:induction false} RunsRead(cl: Lens, have: Lens, rs: seq<LengthRun>, rest: Bits)
    requires LengthLens(cl) && Fits(cl) && RunsOk(cl, rs) && Lengths(have) && Repeats(have, rs)
    ensures var lens := AllUnrolled(have, rs);
      Lengths(lens) && |have| <= |lens| && ReadLens(cl, |lens|, have, RunsBits(cl, rs) + rest) == LensDone(lens, rest)
    decreases |rs|
  {
    hide Fits, RunBits, Unrolled;
    var n := |AllUnrolled(have, rs)|;
    if rs == [] {
      assert RunsBits(cl, rs) + rest == rest;
    } else {
      var more := RunsBits(cl, rs[1..]) + rest;
      assert RunsBits(cl, rs) + rest == RunBits(cl, rs[0]) + more;
      RunGrows(cl, have, rs);
      RunRead(cl, n, have, rs[0], more);
      RunsRead(cl, Unrolled(have, rs[0]), rs[1..], rest);
    }
  }

  lemma RunGrows(cl: Lens, have: Lens, rs: seq<LengthRun>)
    requires LengthLens(cl) && RunsOk(cl, rs) && rs != [] && Repeats(have, rs)
    ensures |have| < |Unrolled(have, rs[0])| <= |AllUnrolled(have, rs)| && Repeats(Unrolled(have, rs[0]), rs[1..])
  {
    Growing(have, rs);
  }

  // ----- The lengths of the code lengths' code -----

  /** Their order: 16, 17, 18, 0, then outwards from 8: 8, 7, 9, 6, 10 and so on. */
  function Order(j: nat): nat
    requires j < 19
  {
    if j < 3 then 16 + j else if j == 3 then 0 else if j % 2 == 0 then 6 + j / 2 else 7 - (j - 5) / 2
  }

  lemma OrderIs(j: nat)
    requires j < 19
    ensures Order(j) < 19 && Order(j) == BORDER[j]
  {
  }

  function OrderedBits(cl: Lens, nb: nat): (s: Bits)
    requires LengthLens(cl) && nb <= 19
    ensures |s| == 3 * nb
  {
    if nb == 0 then [] else OrderIs(nb - 1); OrderedBits(cl, nb - 1) + BitsOf(cl[Order(nb - 1)], 3)
  }

  lemma {:induction false} OrderedAt(cl: Lens, nb: nat, j: nat)
    requires LengthLens(cl) && j < nb <= 19
    ensures Order(j) < 19 && OrderedBits(cl, nb)[3 * j..3 * j + 3] == BitsOf(cl[Order(j)], 3)
  {
    hide BitsOf, Order;
    OrderIs(j);
    OrderIs(nb - 1);
    if j < nb - 1 {
      OrderedAt(cl, nb - 1, j);
      assert OrderedBits(cl, nb)[3 * j..3 * j + 3] == OrderedBits(cl, nb - 1)[3 * j..3 * j + 3];
    }
  }

  /** Those after the first `nb` are 0. */
  predicate Trailing(cl: Lens, nb: nat)
    requires LengthLens(cl)
  {
    forall j {:trigger Order(j)} :: nb <= j < 19 ==> (OrderIs(j); cl[Order(j)] == 0)
  }

  lemma OrderedRead(cl: Lens, nb: nat, rest: Bits)
    requires LengthLens(cl) && nb <= 19 && Trailing(cl, nb)
    ensures HeaderLens(OrderedBits(cl, nb) + rest, nb) == cl
  {
    hide BitsOf, Order, Val, OrderedBits;
    var s := OrderedBits(cl, nb) + rest;
    forall v | 0 <= v < 19
      ensures HeaderLen(s, nb, v) == cl[v]
    {
      var j := PLACE[v];
      BorderPlace(v);
      OrderIs(j);
      if j < nb {
        OrderedAt(cl, nb, j);
        assert s[3 * j..3 * j + 3] == OrderedBits(cl, nb)[3 * j..3 * j + 3];
        SmallPowers();
        ValOfBits(cl[v], 3);
      }
    }
  }

  // ----- Blocks -----

  /** A block: bytes as they are (behind fill bits up to the next byte), literals and matches in the fixed code, or in codes
      of its own (their lengths, run-length coded in `rs`, whose code has the lengths `cl`, of which `nb` are written). */
  datatype Section =
    | Plain(fill: Bits, data: seq<byte>)
    | Fixed(ts: seq<Token>)
    | Own(lit: Lens, dist: Lens, cl: Lens, nb: nat, rs: seq<LengthRun>, ts: seq<Token>)

  /** What the format asks of a dynamic block. */
  predicate Proper(b: Section)
    requires b.Own?
  {
    && LitLens(b.lit) && |b.lit| <= 286 && FormatDistLens(b.dist) && LengthLens(b.cl)
    && 4 <= b.nb <= 19 && Trailing(b.cl, b.nb) && Usable(b.cl)
    && RunsOk(b.cl, b.rs) && Repeats([], b.rs) && AllUnrolled([], b.rs) == b.lit + b.dist
    && Usable(b.lit) && (MaxLen(b.dist) > 0 ==> Usable(b.dist))
    && b.lit[256] > 0 && AllWritable(b.lit, b.dist, b.ts)
  }

  /** Bits up to the next byte. */
  function Filler(at: nat): nat { (8 - at % 8) % 8 }

  /** A block of the right form. */
  predicate Formed(b: Section) {
    match b
    case Plain(_, data) => |data| < 65536
    case Fixed(ts) => AllShaped(ts)
    case Own(_, _, _, _, _, ts) => AllShaped(ts) && Proper(b)
  }

  /** It may begin (behind its three header bits) at bit `at` of the stream, when `out` has been written. */
  predicate BlockOk(b: Section, out: seq<byte>, at: nat)
    requires Formed(b)
  {
    match b
    case Plain(fill, _) => |fill| == Filler(at)
    case Fixed(ts) => Reaches(out, ts)
    case Own(_, _, _, _, _, ts) => Reaches(out, ts)
  }

  function Text(b: Section, out: seq<byte>): seq<byte>
    requires Formed(b)
  {
    match b
    case Plain(_, data) => out + data
    case Fixed(ts) => Expanded(out, ts)
    case Own(_, _, _, _, _, ts) => Expanded(out, ts)
  }

  function PlainBits(fill: Bits, data: seq<byte>): Bits
    requires |data| < 65536
  {
    fill + (BitsOf(|data|, 16) + (BitsOf(65535 - |data|, 16) + Stream(data)))
  }

  function OwnBits(b: Section): Bits
    requires b.Own? && Proper(b)
  {
    BitsOf(|b.lit| - 257, 5) + (BitsOf(|b.dist| - 1, 5) + (BitsOf(b.nb - 4, 4) + (OrderedBits(b.cl, b.nb)
    + (RunsBits(b.cl, b.rs) + Written(b.lit, b.dist, b.ts)))))
  }

  /** A block behind its three header bits. */
  function BlockBits(b: Section): Bits
    requires Formed(b)
  {
    match b
    case Plain(fill, data) => PlainBits(fill, data)
    case Fixed(ts) => FixedBits(ts)
    case Own(_, _, _, _, _, _) => OwnBits(b)
  }

  function Kind(b: Section): Bits {
    match b
    case Plain(_, _) => [false, false]
    case Fixed(_) => [true, false]
    case Own(_, _, _, _, _, _) => [false, true]
  }

  predicate Declined(b: Section) { b.Own? && Refused(b.lit, b.dist) }

  lemma {:induction false} BytesTaken(data: seq<byte>, rest: Bits)
    ensures |Stream(data)| == 8 * |data| && TakeBytes(Stream(data) + rest, |data|) == data
  {
    hide BitsOf, Val;
    StreamLength(data);
    if data != [] {
      StreamLength(data[1..]);
      BytesTaken(data[1..], rest);
      var s := Stream(data) + rest;
      Pow2Eight();
      ValOfBits(data[0], 8);
      assert s[..8] == BitsOf(data[0], 8) && s[8..] == Stream(data[1..]) + rest;
    }
  }

  lemma PlainRead(fill: Bits, data: seq<byte>, out: seq<byte>, rest: Bits)
    requires |data| < 65536 && |fill| < 8 && |rest| % 8 == 0
    ensures Stored(out, PlainBits(fill, data) + rest) == Done(out + data, rest, true)
  {
    hide BitsOf, Val, Stream, TakeBytes;
    var n, m := BitsOf(|data|, 16), BitsOf(65535 - |data|, 16);
    var s := PlainBits(fill, data) + rest;
    BytesTaken(data, rest);
    SmallPowers();
    ValOfBits(|data|, 16);
    ValOfBits(65535 - |data|, 16);
    assert |s| == |fill| + 8 * (4 + |data|) + |rest|;
    assert |s| % 8 == |fill|;
    var s1 := s[|fill|..];
    assert s1 == n + (m + (Stream(data) + rest));
    assert s1[..16] == n && s1[16..32] == m && s1[32..] == Stream(data) + rest;
    assert s1[32 + 8 * |data|..] == rest;
  }

  lemma {:induction false} NoKraft(lens: Lens)
    requires forall v :: 0 <= v < |lens| ==> lens[v] == 0
    ensures Kraft(lens, 0) == 0
  {
    if lens != [] {
      NoKraft(lens[..|lens| - 1]);
    }
  }

  lemma DistFits(dist: Lens)
    requires MaxLen(dist) > 0 ==> Usable(dist)
    ensures Fits(dist)
  {
    if MaxLen(dist) == 0 {
      NoKraft(dist);
    }
  }

  lemma OwnRead(b: Section, out: seq<byte>, rest: Bits)
    requires b.Own? && AllShaped(b.ts) && Reaches(out, b.ts) && Proper(b)
    ensures Dynamic(out, OwnBits(b) + rest) == Done(Expanded(out, b.ts), rest, !Refused(b.lit, b.dist))
  {
    hide BitsOf, Val, OrderedBits, RunsBits, Written, Usable, Expanded, Reaches, AllShaped, AllWritable, RunsOk,
      AllUnrolled, Trailing, HeaderLens, Codes, ReadLens, MaxLen, Refused, Fits, LengthLens, Kraft;
    var w := Written(b.lit, b.dist, b.ts) + rest;
    var r := RunsBits(b.cl, b.rs) + w;
    var h := OrderedBits(b.cl, b.nb) + r;
    var x, y, z := BitsOf(|b.lit| - 257, 5), BitsOf(|b.dist| - 1, 5), BitsOf(b.nb - 4, 4);
    var s := OwnBits(b) + rest;
    SmallPowers();
    ValOfBits(|b.lit| - 257, 5);
    ValOfBits(|b.dist| - 1, 5);
    ValOfBits(b.nb - 4, 4);
    assert s == x + (y + (z + h));
    assert s[..5] == x && s[5..10] == y && s[10..14] == z && s[14..] == h && s[14 + 3 * b.nb..] == r;
    OrderedRead(b.cl, b.nb, r);
    UsableFits(b.cl);
    UsableFits(b.lit);
    DistFits(b.dist);
    RunsRead(b.cl, [], b.rs, w);
    assert (b.lit + b.dist)[..|b.lit|] == b.lit && (b.lit + b.dist)[|b.lit|..] == b.dist;
    TokensRead(b.lit, b.dist, out, b.ts, rest);
  }

  lemma UsableFits(lens: Lens)
    requires Usable(lens)
    ensures Fits(lens)
  {
  }

  lemma KindIs(b: Section)
    ensures Val(Kind(b)) == if b.Plain? then 0 else if b.Fixed? then 1 else 2
  {
    assert [false, false][1..] == [false] && [true, false][1..] == [false] && [false, true][1..] == [true];
    assert [false][1..] == [] && [true][1..] == [] && Val([false]) == 0 && Val([true]) == 1;
  }

  /** Each block is read back as its text. */
  lemma BlockRead(b: Section, out: seq<byte>, at: nat, rest: Bits)
    requires Formed(b) && BlockOk(b, out, at) && (at + |BlockBits(b)| + |rest|) % 8 == 0
    ensures Block(Val(Kind(b)), out, BlockBits(b) + rest) == Done(Text(b, out), rest, !Declined(b))
  {
    hide PlainBits, OwnBits, FixedBits, Codes, Dynamic, Stored, Val, Expanded, Reaches, Proper, AllShaped, FixedLit, FixedDist, Kind;
    KindIs(b);
    match b
    case Plain(fill, data) =>
      Aligned(fill, data, at, rest);
      PlainRead(fill, data, out, rest);
    case Fixed(ts) => FixedRead(out, ts, rest);
    case Own(_, _, _, _, _, _) => OwnRead(b, out, rest);
  }

  lemma Aligned(fill: Bits, data: seq<byte>, at: nat, rest: Bits)
    requires |data| < 65536 && |fill| == Filler(at) && (at + |PlainBits(fill, data)| + |rest|) % 8 == 0
    ensures |rest| % 8 == 0
  {
    hide BitsOf, Stream;
    StreamLength(data);
    assert |PlainBits(fill, data)| == Filler(at) + 8 * (4 + |data|);
  }

  // ----- Streams -----

  predicate AllFormed(bs: seq<Section>) { forall i :: 0 <= i < |bs| ==> Formed(bs[i]) }

  predicate AllOk(bs: seq<Section>, out: seq<byte>, at: nat)
    requires AllFormed(bs)
    decreases |bs|
  {
    bs == [] || (BlockOk(bs[0], out, at + 3) && AllOk(bs[1..], Text(bs[0], out), at + 3 + |BlockBits(bs[0])|))
  }

  function AllText(bs: seq<Section>, out: seq<byte>): seq<byte>
    requires AllFormed(bs)
    decreases |bs|
  {
    if bs == [] then out else AllText(bs[1..], Text(bs[0], out))
  }

  /** Blocks one after the other, the last one marked. */
  function StreamBits(bs: seq<Section>): Bits
    requires AllFormed(bs)
  {
    if bs == [] then [] else [|bs| == 1] + (Kind(bs[0]) + (BlockBits(bs[0]) + StreamBits(bs[1..])))
  }

  lemma Glued(x: bool, k: Bits, b: Bits, m: Bits, rest: Bits)
    requires |k| == 2
    ensures var s := [x] + (k + (b + m)) + rest;
      |s| == 3 + |b| + |m + rest| && s[0] == x && s[1..3] == k && s[3..] == b + (m + rest)
  {
    Assoc([x], k, b, m, rest);
    assert [x] + (k + (b + m)) + rest == [x] + (k + (b + (m + rest)));
  }

  lemma FirstBits(bs: seq<Section>, rest: Bits)
    requires bs != [] && AllFormed(bs)
    ensures var s, b, more := StreamBits(bs) + rest, BlockBits(bs[0]), StreamBits(bs[1..]) + rest;
      |s| == 3 + |b| + |more| && s[0] == (|bs| == 1) && s[1..3] == Kind(bs[0]) && s[3..] == b + more
  {
    hide BlockBits, Kind, Formed;
    KindSize(bs[0]);
    Glued(|bs| == 1, Kind(bs[0]), BlockBits(bs[0]), StreamBits(bs[1..]), rest);
  }

  lemma {:induction false} BlocksRead(bs: seq<Section>, out: seq<byte>, at: nat, rest: Bits)
    requires bs != [] && AllFormed(bs) && AllOk(bs, out, at) && (at + |StreamBits(bs)| + |rest|) % 8 == 0
    ensures Blocks(out, StreamBits(bs) + rest) == Done(AllText(bs, out), rest, forall i :: 0 <= i < |bs| ==> !Declined(bs[i]))
    decreases |bs|
  {
    hide Block, BlockBits, Text, BlockOk, Kind, Val, Declined, StreamBits, Formed;
    FirstBits(bs, rest);
    var b, text, more := BlockBits(bs[0]), Text(bs[0], out), StreamBits(bs[1..]) + rest;
    BlockRead(bs[0], out, at + 3, more);
    if |bs| > 1 {
      BlocksRead(bs[1..], text, at + 3 + |b|, rest);
    } else {
      assert bs[1..] == [];
      NoBlocks();
      assert more == rest;
    }
  }

  lemma NoBlocks()
    ensures StreamBits([]) == []
  {
  }

  lemma KindSize(b: Section)
    ensures |Kind(b)| == 2
  {
  }

  /** The bytes of a stream. */
  function Deflated(bs: seq<Section>): seq<byte>
    requires AllFormed(bs)
  {
    var s := StreamBits(bs);
    Pack(s + Zeros(Filler(|s|)))
  }

  lemma FillsUp(n: nat)
    ensures (0 + n + |Zeros(Filler(n))|) % 8 == 0 && (n + Filler(n)) % 8 == 0 && |Zeros(Filler(n))| == Filler(n)
  {
  }

  /** Whatever is written, in blocks of any kind and with any codes, is a valid stream of its text; it is accepted unless
      one of the blocks is among those the program refuses. */
  lemma WrittenIsRead(bs: seq<Section>)
    requires bs != [] && AllFormed(bs) && AllOk(bs, [], 0)
    ensures var o := Blocks([], Stream(Deflated(bs)));
      o.Done? && o.out == AllText(bs, []) && (o.accepted <==> forall i :: 0 <= i < |bs| ==> !Declined(bs[i]))
  {
    hide Blocks, StreamBits, Pack, Stream, AllText, AllOk, Filler, Zeros, Declined, AllFormed;
    var s := StreamBits(bs);
    FillsUp(|s|);
    BlocksRead(bs, [], 0, Zeros(Filler(|s|)));
    StreamPack(s + Zeros(Filler(|s|)));
  }

  lemma Bits4(v: nat)
    requires v < 16
    ensures BitsOf(v, 4) == [v % 2 == 1, v / 2 % 2 == 1, v / 4 % 2 == 1, v / 8 == 1]
  {
    assert BitsOf(v / 4, 2) == [v / 4 % 2 == 1, v / 8 % 2 == 1];
  }

  lemma Bits8(x: byte)
    ensures BitsOf(x, 8) == BitsOf(x % 16, 4) + BitsOf(x / 16, 4)
  {
    SmallPowers();
    BitsOfSplit(x, 4, 4);
    assert x == x % 16 + Pow2(4) * (x / 16);
    BitsOfLow(x % 16, x / 16, 4);
  }

  lemma CodeOfA()
    ensures MsbOf(145, 8) == [true, false, false, true, false, false, false, true]
  {
    assert MsbOf(9, 2) == [false, true];
    assert MsbOf(9, 4) == [true, false, false, true];
    assert MsbOf(36, 6) == [true, false, false, true, false, false];
  }

  const CODE_OF_A: Bits := [true, false, false, true, false, false, false, true]

  lemma BytesOfA()
    ensures Stream([0x4b, 0x04, 0x00]) == [true] + ([true, false] + (CODE_OF_A + Zeros(7))) + Zeros(6)
  {
    hide BitsOf;
    Bits8(0x4b);
    Bits8(0x04);
    Bits8(0x00);
    Bits4(0);
    Bits4(4);
    Bits4(11);
    assert [0x4b, 0x04, 0x00][1..] == [0x04, 0x00] && [0x04, 0x00][1..] == [0x00] && [0x00][1..] == [];
    assert Stream([0x00]) == BitsOf(0, 8);
    assert Stream([0x04, 0x00]) == BitsOf(4, 8) + BitsOf(0, 8);
  }

  lemma TokensOfA()
    ensures AllShaped([Literal(97)]) && FixedBits([Literal(97)]) == CODE_OF_A + Zeros(7)
    ensures Reaches([], [Literal(97)]) && Expanded([], [Literal(97)]) == [97]
  {
    hide MsbOf;
    CodeOfA();
    assert [Literal(97)][1..] == [];
    assert Reaches([97], []) && Expanded([97], []) == [97];
  }

  lemma BlockOfA()
    ensures var bs := [Fixed([Literal(97)])];
      && AllFormed(bs) && AllOk(bs, [], 0) && AllText(bs, []) == [97]
      && StreamBits(bs) == [true] + ([true, false] + (CODE_OF_A + Zeros(7)))
  {
    hide FixedBits, Expanded, Reaches, AllShaped;
    TokensOfA();
    var bs := [Fixed([Literal(97)])];
    assert bs[1..] == [];
    NoBlocks();
  }

  /** The three bytes 4b 04 00: one fixed block that holds the letter a. */
  lemma LetterA()
    ensures Blocks([], Stream([0x4b, 0x04, 0x00])) == Done([97], Zeros(6), true)
  {
    hide Blocks, Stream, StreamBits, AllOk, AllText, AllFormed;
    BytesOfA();
    BlockOfA();
    BlocksRead([Fixed([Literal(97)])], [], 0, Zeros(6));
  }
}
