// The DEFLATE format of section 3.2 of RFC 1951, read one bit at a time with an unbounded output.
module Deflate {
  import opened BitStrings
  import opened Bytes
  import opened CanonicalCode
  import opened HuftTables
  import opened Sequences

  /** Done: a block ended, `out` is everything written so far and `rest` what follows in the stream; `accepted` says
      that no block so far is one that the program refuses although it is valid (see Refused).  Bad: not a DEFLATE
      stream.  Unchecked: not one either, but in a way the program does not look at (a distance before the start of
      the output, a repeat with nothing to repeat, a code length outside an incomplete code). */
  datatype Outcome =
    | Done(out: seq<byte>, rest: Bits, accepted: bool)
    | Bad
    | Unchecked

  const BORDER: seq<nat> := [16, 17, 18, 0, 8, 7, 9, 6, 10, 5, 11, 4, 12, 3, 13, 2, 14, 1, 15]
  const CPLENS: seq<nat> :=
    [3, 4, 5, 6, 7, 8, 9, 10, 11, 13, 15, 17, 19, 23, 27, 31,
     35, 43, 51, 59, 67, 83, 99, 115, 131, 163, 195, 227, 258, 0, 0]
  const CPLEXT: seq<nat> :=
    [0, 0, 0, 0, 0, 0, 0, 0, 1, 1, 1, 1, 2, 2, 2, 2,
     3, 3, 3, 3, 4, 4, 4, 4, 5, 5, 5, 5, 0, 99, 99]
  const CPDIST: seq<nat> :=
    [1, 2, 3, 4, 5, 7, 9, 13, 17, 25, 33, 49, 65, 97, 129, 193,
     257, 385, 513, 769, 1025, 1537, 2049, 3073, 4097, 6145,
     8193, 12289, 16385, 24577]
  const CPDEXT: seq<nat> :=
    [0, 0, 0, 0, 1, 1, 2, 2, 3, 3, 4, 4, 5, 5, 6, 6,
     7, 7, 8, 8, 9, 9, 10, 10, 11, 11,
     12, 12, 13, 13]

  /** Section 3.2.5 of RFC 1951: the ranges of the length symbols follow one another from 3 on, in
      groups of four that take one more extra bit each, and 285 is 258. */
  lemma LengthTable(i: nat)
    requires i < 27
    ensures |CPLENS| == |CPLEXT| == 31 && CPLENS[0] == 3 && CPLENS[28] == 258 && CPLEXT[28] == 0
    ensures CPLENS[i + 1] == CPLENS[i] + Pow2(CPLEXT[i])
    ensures CPLEXT[i + 1] == if i < 7 then 0 else (i + 1) / 4 - 1
  {
    SmallPowers();
  }

  /** Likewise the distances, from 1 on in groups of two, up to 32768. */
  lemma DistanceTable(i: nat)
    requires i < 29
    ensures |CPDIST| == |CPDEXT| == 30 && CPDIST[0] == 1
    ensures CPDIST[i + 1] == CPDIST[i] + Pow2(CPDEXT[i])
    ensures CPDEXT[i + 1] == if i < 3 then 0 else (i + 1) / 2 - 1
    ensures CPDIST[29] + Pow2(CPDEXT[29]) - 1 == 32768
  {
    SmallPowers();
  }

  lemma SmallPowers()
    ensures Pow2(0) == 1 && Pow2(1) == 2 && Pow2(2) == 4 && Pow2(3) == 8 && Pow2(4) == 16 && Pow2(5) == 32
    ensures Pow2(6) == 64 && Pow2(7) == 128 && Pow2(8) == 256 && Pow2(9) == 512 && Pow2(10) == 1024
    ensures Pow2(11) == 2048 && Pow2(12) == 4096 && Pow2(13) == 8192 && Pow2(14) == 16384
    ensures Pow2(15) == 32768 && Pow2(16) == 65536
  {
    assert Pow2(2) == 4 && Pow2(4) == 16 && Pow2(6) == 64 && Pow2(8) == 256;
    assert Pow2(10) == 1024 && Pow2(12) == 4096 && Pow2(14) == 16384;
  }

  predicate LitLens(lens: Lens) {
    257 <= |lens| <= 288 && forall v :: 0 <= v < |lens| ==> lens[v] <= BMAX
  }

  /** Distance codes: up to 32, of which the program takes up to 30. */
  predicate FormatDistLens(lens: Lens) {
    1 <= |lens| <= 32 && forall v :: 0 <= v < |lens| ==> lens[v] <= BMAX
  }

  predicate DistLens(lens: Lens) {
    1 <= |lens| <= 30 && forall v :: 0 <= v < |lens| ==> lens[v] <= BMAX
  }

  predicate LengthLens(lens: Lens) {
    |lens| == 19 && forall v :: 0 <= v < 19 ==> lens[v] < 8
  }

  function LitSet(lens: Lens): (cs: CodeSet)
    requires LitLens(lens)
    ensures WellFormed(cs) && cs.lens == lens && cs.s == 257
  {
    CodeSet(lens, 257, CPLENS, CPLEXT)
  }

  lemma Entries(extra: seq<nat>)
    requires extra == CPDEXT
    ensures |extra| == |CPDIST| == 30 && forall i :: 0 <= i < |extra| ==> extra[i] < 15
  {
  }

  /** Symbols 30 and 31 may have codes but never occur (sections 3.2.6 and 3.2.7). */
  function DistSet(lens: Lens): (cs: CodeSet)
    requires FormatDistLens(lens)
    ensures WellFormed(cs) && cs.lens == lens && cs.s == 0
  {
    Entries(CPDEXT);
    if |lens| <= 30 then CodeSet(lens, 0, CPDIST, CPDEXT)
    else CodeSet(lens, 0, CPDIST + [0, 0], CPDEXT + [INVALID, INVALID])
  }

  /** The lengths of the code lengths' own code: all symbols are plain values. */
  function LengthSet(lens: Lens): (cs: CodeSet)
    requires LengthLens(lens)
    ensures WellFormed(cs) && cs.lens == lens && cs.s == 19
  {
    CodeSet(lens, 19, [], [])
  }

  /** A string of `len` bytes from `dist` bytes back; source and copy may overlap. */
  function CopyMatch(out: seq<byte>, len: nat, dist: nat): (r: seq<byte>)
    requires 1 <= dist <= |out|
    ensures |r| == |out| + len && out <= r
  {
    if len == 0 then out
    else
      var r := CopyMatch(out, len - 1, dist);
      r + [r[|r| - dist]]
  }

  /** Compressed data up to and including its end-of-block code. */
  function Codes(lit: Lens, dist: Lens, out: seq<byte>, s: Bits): (r: Outcome)
    requires LitLens(lit) && FormatDistLens(dist)
    ensures r.Done? ==> |r.rest| < |s| && r.accepted
    decreases |s|
  {
    match DecodeFrom(LitSet(lit), s, 1)
    case Code(op, arg, used) =>
      var s1 := s[used..];
      if op == 16 then Codes(lit, dist, out + [arg % 256], s1)
      else if op == 15 then Done(out, s1, true)
      else if op > |s1| then Bad
      else Match(lit, dist, out, arg + Val(s1[..op]), s1[op..])
    case _ => Bad
  }

  /** The distance that follows a length, and the copy. */
  function Match(lit: Lens, dist: Lens, out: seq<byte>, len: nat, s: Bits): (r: Outcome)
    requires LitLens(lit) && FormatDistLens(dist)
    ensures r.Done? ==> |r.rest| < |s| && r.accepted
    decreases |s|
  {
    match DecodeFrom(DistSet(dist), s, 1)
    case Code(op, arg, used) =>
      var s1 := s[used..];
      if op > |s1| then Bad
      else
        var d := arg + Val(s1[..op]);
        if d == 0 || d > |out| then Unchecked
        else Codes(lit, dist, CopyMatch(out, len, d), s1[op..])
    case _ => Bad
  }

  function TakeBytes(s: Bits, n: nat): seq<byte>
    requires 8 * n <= |s|
  {
    if n == 0 then [] else [Val(s[..8]) % 256] + TakeBytes(s[8..], n - 1)
  }

  /** Section 3.2.4: a stored block starts at a byte boundary; streams are whole bytes. */
  function Stored(out: seq<byte>, s: Bits): (r: Outcome)
    ensures r.Done? ==> |r.rest| <= |s|
  {
    var s1 := s[|s| % 8..];
    if |s1| < 32 then Bad
    else
      var n := Val(s1[..16]);
      if Val(s1[16..32]) != 65535 - n || |s1| < 32 + 8 * n then Bad
      else Done(out + TakeBytes(s1[32..], n), s1[32 + 8 * n..], true)
  }

  function FixedLit(): (lens: Lens)
    ensures LitLens(lens)
  {
    Repeat<nat>(8, 144) + Repeat<nat>(9, 112) + Repeat<nat>(7, 24) + Repeat<nat>(8, 8)
  }

  function FixedDist(): (lens: Lens)
    ensures DistLens(lens)
  {
    Repeat<nat>(5, 30)
  }

  /** A set of lengths for which huft_build makes tables that are used: some symbol, not more symbols than
      codes, and no code left over unless the longest length is 1. */
  predicate Usable(lens: Lens) {
    var g := MaxLen(lens);
    g > 0 && Kraft(lens, g) <= Pow2(g) && (Kraft(lens, g) < Pow2(g) ==> g == 1)
  }

  /** Where symbol `v` stands in BORDER. */
  const PLACE: seq<nat> := [3, 17, 15, 13, 11, 9, 7, 5, 4, 6, 8, 10, 12, 14, 16, 18, 0, 1, 2]

  lemma BorderPlace(i: nat)
    requires i < 19
    ensures |BORDER| == |PLACE| == 19 && BORDER[i] < 19 && PLACE[i] < 19
    ensures PLACE[BORDER[i]] == i && BORDER[PLACE[i]] == i
  {
  }

  function HeaderLen(s: Bits, nb: nat, v: nat): (r: nat)
    requires 3 * nb <= |s| && nb <= 19 && v < 19
    ensures r < 8
  {
    var j := PLACE[v];
    if j < nb then
      ValBound(s[3 * j..3 * j + 3]);
      assert Pow2(3) == 8;
      Val(s[3 * j..3 * j + 3])
    else 0
  }

  /** The 3-bit lengths of the code lengths' code, in their own order (section 3.2.7). */
  function HeaderLens(s: Bits, nb: nat): (r: Lens)
    requires 3 * nb <= |s| && nb <= 19
    ensures LengthLens(r)
  {
    seq(19, v requires 0 <= v < 19 => HeaderLen(s, nb, v))
  }

  datatype LensOutcome = LensDone(lens: Lens, rest: Bits) | LensBad | LensUnchecked

  /** The code lengths of both codes, run-length coded (section 3.2.7). */
  function ReadLens(cl: Lens, n: nat, have: Lens, s: Bits): (r: LensOutcome)
    ensures r.LensDone? ==> |r.rest| <= |s|
    requires LengthLens(cl)
    requires |have| <= n && forall v :: 0 <= v < |have| ==> have[v] < 16
    ensures r.LensDone? ==> |r.lens| == n && forall v :: 0 <= v < n ==> r.lens[v] < 16
    decreases |s|
  {
    if |have| == n then LensDone(have, s)
    else
      match DecodeFrom(LengthSet(cl), s, 1)
      case Code(_, v, used) =>
        var s1 := s[used..];
        if v < 16 then ReadLens(cl, n, have + [v], s1)
        else if v == 16 then
          if |have| == 0 then LensUnchecked else ReadRun(cl, n, have, s1, have[|have| - 1], 2, 3)
        else if v == 17 then ReadRun(cl, n, have, s1, 0, 3, 3)
        else ReadRun(cl, n, have, s1, 0, 7, 11)
      case BadCode => LensUnchecked
      case Short => LensBad
  }

  /** A run of `v`: its length is `least` plus the next `bits` bits. */
  function ReadRun(cl: Lens, n: nat, have: Lens, s: Bits, v: nat, bits: nat, least: nat): (r: LensOutcome)
    ensures r.LensDone? ==> |r.rest| <= |s|
    requires LengthLens(cl)
    requires bits > 0 && |have| <= n && v < 16 && forall v :: 0 <= v < |have| ==> have[v] < 16
    ensures r.LensDone? ==> |r.lens| == n && forall v :: 0 <= v < n ==> r.lens[v] < 16
    decreases |s|, 1
  {
    if bits > |s| then LensBad
    else
      var count := least + Val(s[..bits]);
      if |have| + count > n then LensBad
      else ReadLens(cl, n, have + Repeat<nat>(v, count), s[bits..])
  }

  lemma FiveBits(s: Bits)
    requires |s| == 5
    ensures Val(s) < 32
  {
    ValBound(s);
    assert Pow2(5) == 32;
  }

  function Dynamic(out: seq<byte>, s: Bits): (r: Outcome)
    ensures r.Done? ==> |r.rest| <= |s|
  {
    if |s| < 14 then Bad
    else
      var nl := 257 + Val(s[..5]);
      var nd := 1 + Val(s[5..10]);
      FiveBits(s[5..10]);
      var nb := 4 + Val(s[10..14]);
      if nl > 286 || nb > 19 || |s| < 14 + 3 * nb then Bad
      else
        var cl := HeaderLens(s[14..], nb);
        if !Usable(cl) then Bad
        else
          match ReadLens(cl, nl + nd, [], s[14 + 3 * nb..])
          case LensDone(lens, rest) => DynamicCodes(lens[..nl], lens[nl..], out, rest)
          case LensBad => Bad
          case LensUnchecked => Unchecked
  }

  /** The valid blocks that the program does not decode: those with 31 or 32 distance codes, and those with length
      symbols but no distance code. */
  predicate Refused(lit: Lens, dist: Lens) { |dist| > 30 || (MaxLen(dist) == 0 && |lit| > 257) }

  /** The outcome, behind blocks of which it is known whether they are accepted. */
  function If(accepted: bool, o: Outcome): Outcome {
    if o.Done? then o.(accepted := accepted && o.accepted) else o
  }

  function DynamicCodes(lit: Lens, dist: Lens, out: seq<byte>, s: Bits): (r: Outcome)
    requires LitLens(lit) && FormatDistLens(dist)
    ensures r.Done? ==> |r.rest| <= |s|
  {
    if !Usable(lit) || (MaxLen(dist) > 0 && !Usable(dist)) then Bad
    else If(!Refused(lit, dist), Codes(lit, dist, out, s))
  }

  /** One block after its three header bits. */
  function Block(kind: nat, out: seq<byte>, s: Bits): (r: Outcome)
    ensures r.Done? ==> |r.rest| <= |s|
  {
    if kind == 0 then Stored(out, s)
    else if kind == 1 then Codes(FixedLit(), FixedDist(), out, s)
    else if kind == 2 then Dynamic(out, s)
    else Bad
  }

  /** Blocks up to and including the one marked as the last. */
  function Blocks(out: seq<byte>, s: Bits): (r: Outcome)
    ensures r.Done? ==> |r.rest| <= |s|
    decreases |s|
  {
    if |s| < 3 then Bad
    else
      var outcome := Block(Val(s[1..3]), out, s[3..]);
      if outcome.Done? && !s[0] then If(outcome.accepted, Blocks(outcome.out, outcome.rest)) else outcome
  }
}
